/**
 * One poll of the keyboard, as a function on values.
 *
 * Both transmitters poll the keyboard in a loop. Each poll ramps the four
 * stick channels (CH1-CH4) by 10 while a key is held, snaps CH6 to an
 * extreme, advances a three-position switch on the press edge of a toggle
 * key (CH5, CH7-CH16), and restores everything on the press edge of `R`.
 * The press edges are detected with a set of keys seen held on the previous
 * poll. The keyboard itself is replaced by the set of keys held during the
 * poll; every key the source polls is one character, so keys are `char`s.
 *
 * The classes that model the two scripts' mutable state are proved against
 * `Tick` (main.py's order of phases) and `ControllerTick` (the order of
 * sbus_controller.py); `TickOrdersAgree` shows the two orders give the same
 * result.
 */
module InputMapper {
  const ChannelCount: nat := 16
  /** `switch_states`: one three-position switch per toggle key. */
  const SwitchCount: nat := 11
  const RampStep: int := 10
  const RampMin: int := 360
  const RampMax: int := 1680
  /** The value a switch in position 1, 2 or 3 puts on its channel. */
  const Levels: seq<int> := [500, 1000, 1500]
  const ResetKey: char := 'R'

  /** `toggle_map` in its insertion order: key, index into `switch_states`, index into `control`. */
  const ToggleMap: seq<(char, nat, nat)> :=
    [('0', 0, 4), ('1', 1, 6), ('2', 2, 7), ('3', 3, 8), ('4', 4, 9), ('5', 5, 10),
     ('6', 6, 11), ('7', 7, 12), ('8', 8, 13), ('9', 9, 14), ('-', 10, 15)]

  /** The key of toggle entry `t`: the digits '0'-'9', then '-'. */
  function ToggleKey(t: nat): (k: char)
    requires t < SwitchCount
    ensures k != ResetKey
  {
    if t < 10 then ('0' as int + t) as char else '-'
  }

  /** The channel toggle entry `t` drives: CH5 for key '0', CH7-CH16 for the others. */
  function ToggleChannel(t: nat): (i: nat)
    requires t < SwitchCount
    ensures IsToggleChannel(i) && i < ChannelCount
  {
    if t == 0 then 4 else t + 5
  }

  predicate IsToggleChannel(i: nat)
  {
    i == 4 || 6 <= i < ChannelCount
  }

  /** The channels the keyboard state machine holds: CH1-CH16 and the eleven switch positions. */
  datatype KeyboardState = KeyboardState(control: seq<int>, switches: seq<int>, pressed: set<char>)

  predicate WellFormed(st: KeyboardState)
  {
    |st.control| == ChannelCount && |st.switches| == SwitchCount
  }

  // ---------------------------------------------------------------------
  // Initial state
  // ---------------------------------------------------------------------

  /** CH1-CH4 and CH6 at their centre 1000; every switch channel at the level of position 1. */
  function InitialControl(): (c: seq<int>)
    ensures |c| == ChannelCount
    ensures forall i :: 0 <= i < 4 ==> c[i] == 1000
    ensures c[5] == 1000
    ensures forall t :: 0 <= t < SwitchCount ==> c[ToggleChannel(t)] == Level(1)
  {
    seq(ChannelCount, i requires 0 <= i < ChannelCount => if i < 4 || i == 5 then 1000 else 500)
  }

  function InitialSwitches(): (s: seq<int>)
    ensures |s| == SwitchCount
  {
    seq(SwitchCount, _ => 1)
  }

  function Initial(): KeyboardState
  {
    KeyboardState(InitialControl(), InitialSwitches(), {})
  }

  // ---------------------------------------------------------------------
  // The invariant
  // ---------------------------------------------------------------------

  /** Position `s` of a switch and the channel value it stands for. */
  function Level(s: int): (v: int)
    requires 1 <= s <= 3
    ensures v == 500 * s
  {
    Levels[s - 1]
  }

  /** `s % 3 + 1`: the position after `s`, for any integer (Python's `%` is never negative here). */
  function Next(s: int): (n: int)
    ensures 1 <= n <= 3
    ensures 1 <= s <= 2 ==> n == s + 1
    ensures s == 3 ==> n == 1
  {
    s % 3 + 1
  }

  /** Every switch is in position 1, 2 or 3 and its channel carries that position's level. */
  predicate SwitchesConsistent(st: KeyboardState)
    requires WellFormed(st)
  {
    forall t :: 0 <= t < SwitchCount ==>
      1 <= st.switches[t] <= 3 && st.control[ToggleChannel(t)] == Level(st.switches[t])
  }

  /** CH1-CH4 are multiples of 10 in 360-1680. */
  predicate SticksInRange(control: seq<int>)
    requires |control| == ChannelCount
  {
    forall i :: 0 <= i < 4 ==> RampMin <= control[i] <= RampMax && control[i] % RampStep == 0
  }

  /** CH6 is at its rest value or at one of its extremes. */
  predicate AileronSettled(control: seq<int>)
    requires |control| == ChannelCount
  {
    control[5] == 360 || control[5] == 1000 || control[5] == 1680
  }

  predicate Valid(st: KeyboardState)
  {
    WellFormed(st) && SwitchesConsistent(st) && SticksInRange(st.control) && AileronSettled(st.control)
  }

  // ---------------------------------------------------------------------
  // The phases of one poll
  // ---------------------------------------------------------------------

  /**
   * One stick channel: the increase key is tested first and wins over the
   * decrease key; each moves by 10 only while the value is short of its bound.
   */
  function Ramp(v: int, up: bool, down: bool): (r: int)
    ensures -RampStep <= r - v <= RampStep
    ensures r > v <==> up && v < RampMax
    ensures r < v <==> !up && down && v > RampMin
  {
    if up then (if v < RampMax then v + RampStep else v)
    else if down then (if v > RampMin then v - RampStep else v)
    else v
  }

  /** The increase and decrease keys of CH1-CH4: j/l, a/d, w/s, i/k. */
  function UpKey(i: nat): char requires i < 4 { ['j', 'a', 'w', 'i'][i] }
  function DownKey(i: nat): char requires i < 4 { ['l', 'd', 's', 'k'][i] }

  /** The analog phase: CH1-CH4 ramp, the other channels are untouched. */
  function AnalogPhase(control: seq<int>, held: set<char>): (r: seq<int>)
    requires |control| == ChannelCount
    ensures |r| == ChannelCount
    ensures forall i :: 4 <= i < ChannelCount ==> r[i] == control[i]
  {
    seq(ChannelCount, i requires 0 <= i < ChannelCount =>
      if i < 4 then Ramp(control[i], UpKey(i) in held, DownKey(i) in held) else control[i])
  }

  /** CH6: `q` snaps it to 360, otherwise `e` to 1680; no other channel changes. */
  function AileronPhase(control: seq<int>, held: set<char>): (r: seq<int>)
    requires |control| == ChannelCount
    ensures |r| == ChannelCount
    ensures forall i :: 0 <= i < ChannelCount && i != 5 ==> r[i] == control[i]
    ensures 'q' in held ==> r[5] == 360
    ensures 'q' !in held && 'e' in held ==> r[5] == 1680
    ensures 'q' !in held && 'e' !in held ==> r[5] == control[5]
  {
    if 'q' in held then control[5 := 360]
    else if 'e' in held then control[5 := 1680]
    else control
  }

  /** A press edge of toggle key `t`: held now, not held on the previous poll. */
  predicate ToggleEdge(st: KeyboardState, held: set<char>, t: nat)
    requires t < SwitchCount
  {
    ToggleKey(t) in held && ToggleKey(t) !in st.pressed
  }

  /**
   * One entry of the toggle loop: on a press edge the key is recorded, its
   * switch advances and its channel takes the new level; a key that stays
   * held does nothing; a released key is forgotten.
   */
  function ToggleStep(st: KeyboardState, held: set<char>, t: nat): (r: KeyboardState)
    requires WellFormed(st) && t < SwitchCount
    ensures WellFormed(r)
    ensures ToggleEdge(st, held, t) ==>
      r.switches[t] == Next(st.switches[t]) && r.control[ToggleChannel(t)] == Level(r.switches[t])
    ensures !ToggleEdge(st, held, t) ==> r.control == st.control && r.switches == st.switches
    ensures forall u :: 0 <= u < SwitchCount && u != t ==> r.switches[u] == st.switches[u]
    ensures forall i :: 0 <= i < ChannelCount && i != ToggleChannel(t) ==> r.control[i] == st.control[i]
    ensures ToggleKey(t) in r.pressed <==> ToggleKey(t) in held
    ensures forall k :: k != ToggleKey(t) ==> (k in r.pressed <==> k in st.pressed)
  {
    var key, channel := ToggleKey(t), ToggleChannel(t);
    if key in held then
      if key !in st.pressed then
        var s := Next(st.switches[t]);
        KeyboardState(st.control[channel := Level(s)], st.switches[t := s], st.pressed + {key})
      else st
    else st.(pressed := st.pressed - {key})
  }

  /** The first `n` entries of the toggle loop, in order. */
  function ToggleUpTo(st: KeyboardState, held: set<char>, n: nat): (r: KeyboardState)
    requires WellFormed(st) && n <= SwitchCount
    ensures WellFormed(r)
  {
    if n == 0 then st else ToggleStep(ToggleUpTo(st, held, n - 1), held, n - 1)
  }

  function TogglePhase(st: KeyboardState, held: set<char>): (r: KeyboardState)
    requires WellFormed(st)
    ensures WellFormed(r)
  {
    ToggleUpTo(st, held, SwitchCount)
  }

  /** On a press edge of `R`, every channel and switch goes back to its initial value. */
  function ResetPhase(st: KeyboardState, held: set<char>): (r: KeyboardState)
    requires WellFormed(st)
    ensures WellFormed(r)
    ensures ResetEdge(st, held) ==> r.control == InitialControl() && r.switches == InitialSwitches()
    ensures !ResetEdge(st, held) ==> r.control == st.control && r.switches == st.switches
    ensures ResetKey in r.pressed <==> ResetKey in held
    ensures forall k :: k != ResetKey ==> (k in r.pressed <==> k in st.pressed)
  {
    if ResetKey in held then
      if ResetKey !in st.pressed then KeyboardState(InitialControl(), InitialSwitches(), st.pressed + {ResetKey})
      else st
    else st.(pressed := st.pressed - {ResetKey})
  }

  predicate ResetEdge(st: KeyboardState, held: set<char>)
  {
    ResetKey in held && ResetKey !in st.pressed
  }

  /** One poll in main.py's order: sticks, CH6, toggles, reset. */
  function Tick(st: KeyboardState, held: set<char>): (r: KeyboardState)
    requires WellFormed(st)
    ensures WellFormed(r)
    ensures ResetKey in r.pressed <==> ResetKey in held
  {
    var sticks := st.(control := AileronPhase(AnalogPhase(st.control, held), held));
    ResetPhase(TogglePhase(sticks, held), held)
  }

  /** One poll in sbus_controller.py's order: sticks, toggles, CH6, reset. */
  function ControllerTick(st: KeyboardState, held: set<char>): (r: KeyboardState)
    requires WellFormed(st)
    ensures WellFormed(r)
    ensures ResetKey in r.pressed <==> ResetKey in held
  {
    var toggled := TogglePhase(st.(control := AnalogPhase(st.control, held)), held);
    ResetPhase(toggled.(control := AileronPhase(toggled.control, held)), held)
  }

  /** Polls in sequence, one held-key set per poll. */
  function Run(st: KeyboardState, polls: seq<set<char>>): (r: KeyboardState)
    requires WellFormed(st)
    ensures WellFormed(r)
    decreases |polls|
  {
    if polls == [] then st else Run(Tick(st, polls[0]), polls[1..])
  }

  // ---------------------------------------------------------------------
  // The toggle loop, entry by entry
  // ---------------------------------------------------------------------

  /** The literal table is the regular one the functions above describe. */
  lemma ToggleMapIsRegular(t: nat)
    requires t < SwitchCount
    ensures |ToggleMap| == SwitchCount
    ensures ToggleMap[t] == (ToggleKey(t), t, ToggleChannel(t))
  {
  }

  lemma ToggleKeyInjective(t: nat, u: nat)
    requires t < SwitchCount && u < SwitchCount && t != u
    ensures ToggleKey(t) != ToggleKey(u)
  {
  }

  /**
   * What the first `n` entries of the toggle loop do, stated entry by entry:
   * a switch advances exactly when its key has a press edge, its channel then
   * takes the new level, the stick and CH6 channels are untouched, a visited
   * key is recorded exactly when it is held, and no other key's record changes.
   */
  lemma {:induction false} ToggleUpToEffect(st: KeyboardState, held: set<char>, n: nat)
    requires WellFormed(st) && n <= SwitchCount
    ensures forall t :: 0 <= t < SwitchCount ==>
      ToggleUpTo(st, held, n).switches[t]
        == if t < n && ToggleEdge(st, held, t) then Next(st.switches[t]) else st.switches[t]
    ensures forall t :: 0 <= t < SwitchCount ==>
      ToggleUpTo(st, held, n).control[ToggleChannel(t)]
        == if t < n && ToggleEdge(st, held, t) then Level(Next(st.switches[t])) else st.control[ToggleChannel(t)]
    ensures forall i :: 0 <= i < ChannelCount && !IsToggleChannel(i) ==> ToggleUpTo(st, held, n).control[i] == st.control[i]
    ensures forall t :: 0 <= t < n ==> (ToggleKey(t) in ToggleUpTo(st, held, n).pressed <==> ToggleKey(t) in held)
    ensures forall k :: k !in ToggleKeys(n) ==> (k in ToggleUpTo(st, held, n).pressed <==> k in st.pressed)
  {
    if n > 0 {
      var prev := ToggleUpTo(st, held, n - 1);
      ToggleUpToEffect(st, held, n - 1);
      var u := n - 1;
      assert ToggleKey(u) !in ToggleKeys(u) by {
        forall t | 0 <= t < u ensures ToggleKey(t) != ToggleKey(u) { ToggleKeyInjective(t, u); }
      }
      assert ToggleEdge(prev, held, u) == ToggleEdge(st, held, u);
      assert ToggleKeys(n) == ToggleKeys(u) + {ToggleKey(u)};
    }
  }

  /** The keys of the first `n` toggle entries. */
  function ToggleKeys(n: nat): (keys: set<char>)
    requires n <= SwitchCount
    ensures forall t :: 0 <= t < n ==> ToggleKey(t) in keys
    ensures ResetKey !in keys
  {
    set t | 0 <= t < n :: ToggleKey(t)
  }

  /** The sticks and CH6 phases leave the switches, the records and every toggle channel alone. */
  lemma SticksLeaveTogglesAlone(st: KeyboardState, held: set<char>, t: nat)
    requires WellFormed(st) && t < SwitchCount
    ensures AileronPhase(AnalogPhase(st.control, held), held)[ToggleChannel(t)] == st.control[ToggleChannel(t)]
  {
  }

  // ---------------------------------------------------------------------
  // What one poll does
  // ---------------------------------------------------------------------

  /** The initial state of both scripts satisfies the invariant. */
  lemma InitialValid()
    ensures Valid(Initial())
    ensures forall t :: 0 <= t < SwitchCount ==> Initial().switches[t] == 1 && Initial().control[ToggleChannel(t)] == 500
  {
  }

  /** In a state that keeps the invariant every channel lies in 360-1680, well inside the 11 bits a frame carries. */
  lemma ValidChannelsInRange(st: KeyboardState)
    requires Valid(st)
    ensures forall i :: 0 <= i < ChannelCount ==> RampMin <= st.control[i] <= RampMax
  {
    forall i | 0 <= i < ChannelCount
      ensures RampMin <= st.control[i] <= RampMax
    {
      if IsToggleChannel(i) {
        var t := if i == 4 then 0 else i - 5;
        assert ToggleChannel(t) == i;
      }
    }
  }

  /** The stick ramp keeps a multiple of 10 in 360-1680 there, and moves it by at most one step. */
  lemma RampInRange(v: int, up: bool, down: bool)
    requires RampMin <= v <= RampMax && v % RampStep == 0
    ensures RampMin <= Ramp(v, up, down) <= RampMax && Ramp(v, up, down) % RampStep == 0
    ensures Ramp(v, up, down) - v in {-RampStep, 0, RampStep}
  {
  }

  /**
   * Every poll keeps the invariant: switches in positions 1-3 with their
   * channels at the matching level, CH1-CH4 multiples of 10 in 360-1680,
   * CH6 at 360, 1000 or 1680.
   */
  lemma TickPreservesValid(st: KeyboardState, held: set<char>)
    requires Valid(st)
    ensures Valid(Tick(st, held))
  {
    var sticks := st.(control := AileronPhase(AnalogPhase(st.control, held), held));
    forall i | 0 <= i < 4
      ensures RampMin <= sticks.control[i] <= RampMax && sticks.control[i] % RampStep == 0
    {
      RampInRange(st.control[i], UpKey(i) in held, DownKey(i) in held);
    }
    forall t | 0 <= t < SwitchCount
      ensures sticks.control[ToggleChannel(t)] == Level(sticks.switches[t])
    {
      SticksLeaveTogglesAlone(st, held, t);
    }
    var toggled := TogglePhase(sticks, held);
    ToggleUpToEffect(sticks, held, SwitchCount);
    assert Valid(toggled);
    InitialValid();
  }

  /** However the keys are held poll after poll, the invariant holds throughout. */
  lemma {:induction false} RunPreservesValid(st: KeyboardState, polls: seq<set<char>>)
    requires Valid(st)
    ensures Valid(Run(st, polls))
    decreases |polls|
  {
    if polls != [] {
      TickPreservesValid(st, polls[0]);
      RunPreservesValid(Tick(st, polls[0]), polls[1..]);
    }
  }

  /**
   * Without a reset edge, a poll moves stick channel `i` as `Ramp` says:
   * the increase key wins when both are held, and the value moves by at most 10.
   */
  lemma StickTick(st: KeyboardState, held: set<char>, i: nat)
    requires WellFormed(st) && i < 4 && !ResetEdge(st, held)
    ensures Tick(st, held).control[i] == Ramp(st.control[i], UpKey(i) in held, DownKey(i) in held)
    ensures UpKey(i) in held ==> Tick(st, held).control[i] == if st.control[i] < RampMax then st.control[i] + RampStep else st.control[i]
    ensures Tick(st, held).control[i] - st.control[i] in {-RampStep, 0, RampStep}
  {
    var sticks := st.(control := AileronPhase(AnalogPhase(st.control, held), held));
    ToggleUpToEffect(sticks, held, SwitchCount);
  }

  /** Without a reset edge, `q` puts CH6 at 360, otherwise `e` at 1680, otherwise it stays. */
  lemma AileronTick(st: KeyboardState, held: set<char>)
    requires WellFormed(st) && !ResetEdge(st, held)
    ensures Tick(st, held).control[5] == if 'q' in held then 360 else if 'e' in held then 1680 else st.control[5]
  {
    var sticks := st.(control := AileronPhase(AnalogPhase(st.control, held), held));
    ToggleUpToEffect(sticks, held, SwitchCount);
  }

  /**
   * Without a reset edge, toggle entry `t` advances its switch and sets its
   * channel to the new level exactly on a press edge of its key; afterwards
   * the key is recorded exactly when it is held.
   */
  lemma ToggleTick(st: KeyboardState, held: set<char>, t: nat)
    requires WellFormed(st) && t < SwitchCount && !ResetEdge(st, held)
    ensures Tick(st, held).switches[t] == if ToggleEdge(st, held, t) then Next(st.switches[t]) else st.switches[t]
    ensures Tick(st, held).control[ToggleChannel(t)]
            == if ToggleEdge(st, held, t) then Level(Next(st.switches[t])) else st.control[ToggleChannel(t)]
    ensures ToggleKey(t) in Tick(st, held).pressed <==> ToggleKey(t) in held
  {
    var sticks := st.(control := AileronPhase(AnalogPhase(st.control, held), held));
    ToggleUpToEffect(sticks, held, SwitchCount);
    SticksLeaveTogglesAlone(st, held, t);
  }

  /** A released toggle key is forgotten, reset or not. */
  lemma ReleaseForgets(st: KeyboardState, held: set<char>, t: nat)
    requires WellFormed(st) && t < SwitchCount && ToggleKey(t) !in held
    ensures ToggleKey(t) !in Tick(st, held).pressed
  {
    var sticks := st.(control := AileronPhase(AnalogPhase(st.control, held), held));
    ToggleUpToEffect(sticks, held, SwitchCount);
  }

  /** On a press edge of `R` every channel and switch is back at its initial value, whatever else was pressed. */
  lemma ResetTick(st: KeyboardState, held: set<char>)
    requires WellFormed(st) && ResetEdge(st, held)
    ensures Tick(st, held).control == InitialControl() && Tick(st, held).switches == InitialSwitches()
    ensures ResetKey in Tick(st, held).pressed
  {
    var sticks := st.(control := AileronPhase(AnalogPhase(st.control, held), held));
    ToggleUpToEffect(sticks, held, SwitchCount);
  }

  /** So a toggle pressed in the same poll as the reset edge is overridden: its switch ends at 1. */
  lemma ResetOverridesToggle(st: KeyboardState, held: set<char>, t: nat)
    requires WellFormed(st) && t < SwitchCount && ResetEdge(st, held) && ToggleEdge(st, held, t)
    ensures Tick(st, held).switches[t] == 1 && Tick(st, held).control[ToggleChannel(t)] == 500
  {
    ResetTick(st, held);
  }

  /** Holding `R` after its press edge has no effect beyond the other phases. */
  lemma HeldResetDoesNothing(st: KeyboardState, held: set<char>)
    requires WellFormed(st) && ResetKey in held && ResetKey in st.pressed
    ensures Tick(st, held) == TogglePhase(st.(control := AileronPhase(AnalogPhase(st.control, held), held)), held)
  {
    var sticks := st.(control := AileronPhase(AnalogPhase(st.control, held), held));
    ToggleUpToEffect(sticks, held, SwitchCount);
  }

  // ---------------------------------------------------------------------
  // The two scripts' orders of phases agree
  // ---------------------------------------------------------------------

  /** CH6 is no toggle channel, so one toggle entry and the CH6 phase commute. */
  lemma ToggleStepCommutes(st: KeyboardState, held: set<char>, t: nat)
    requires WellFormed(st) && t < SwitchCount
    ensures ToggleStep(st.(control := AileronPhase(st.control, held)), held, t)
            == ToggleStep(st, held, t).(control := AileronPhase(ToggleStep(st, held, t).control, held))
  {
    var r := ToggleStep(st, held, t);
    var c := ToggleChannel(t);
    if ToggleEdge(st, held, t) {
      var v := Level(Next(st.switches[t]));
      assert AileronPhase(st.control, held)[c := v] == AileronPhase(st.control[c := v], held);
    }
  }

  lemma {:induction false} ToggleUpToCommutes(st: KeyboardState, held: set<char>, n: nat)
    requires WellFormed(st) && n <= SwitchCount
    ensures ToggleUpTo(st.(control := AileronPhase(st.control, held)), held, n)
            == ToggleUpTo(st, held, n).(control := AileronPhase(ToggleUpTo(st, held, n).control, held))
  {
    if n > 0 {
      ToggleUpToCommutes(st, held, n - 1);
      ToggleStepCommutes(ToggleUpTo(st, held, n - 1), held, n - 1);
    }
  }

  /**
   * sbus_controller.py runs the CH6 phase after the toggle loop, main.py
   * before it; both orders give the same poll.
   */
  lemma TickOrdersAgree(st: KeyboardState, held: set<char>)
    requires WellFormed(st)
    ensures ControllerTick(st, held) == Tick(st, held)
  {
    ToggleUpToCommutes(st.(control := AnalogPhase(st.control, held)), held, SwitchCount);
  }

  // ---------------------------------------------------------------------
  // Debounce over several polls
  // ---------------------------------------------------------------------

  /** Polls that hold `R` on none of them never reset. */
  predicate NoReset(polls: seq<set<char>>)
  {
    forall p :: 0 <= p < |polls| ==> ResetKey !in polls[p]
  }

  /** Polls that all hold the key of toggle entry `t`. */
  predicate AllHold(polls: seq<set<char>>, t: nat)
    requires t < SwitchCount
  {
    forall p :: 0 <= p < |polls| ==> ToggleKey(t) in polls[p]
  }

  /** A toggle key already recorded and held on every later poll changes nothing and stays recorded. */
  lemma {:induction false} HeldKeyChangesNothing(st: KeyboardState, polls: seq<set<char>>, t: nat)
    requires WellFormed(st) && t < SwitchCount && ToggleKey(t) in st.pressed
    requires AllHold(polls, t) && NoReset(polls)
    ensures Run(st, polls).switches[t] == st.switches[t]
    ensures Run(st, polls).control[ToggleChannel(t)] == st.control[ToggleChannel(t)]
    ensures ToggleKey(t) in Run(st, polls).pressed
    decreases |polls|
  {
    if polls != [] {
      ToggleTick(st, polls[0], t);
      assert AllHold(polls[1..], t) && NoReset(polls[1..]) by {
        forall p | 0 <= p < |polls| - 1 ensures polls[1..][p] == polls[p + 1] { }
      }
      HeldKeyChangesNothing(Tick(st, polls[0]), polls[1..], t);
    }
  }

  /**
   * Holding a toggle key across any number of polls changes its switch at
   * most once: once if the key was not recorded before the first poll, not
   * at all if it was.
   */
  lemma HoldingChangesOnce(st: KeyboardState, polls: seq<set<char>>, t: nat)
    requires WellFormed(st) && t < SwitchCount && |polls| > 0
    requires AllHold(polls, t) && NoReset(polls)
    ensures Run(st, polls).switches[t]
            == if ToggleKey(t) in st.pressed then st.switches[t] else Next(st.switches[t])
  {
    ToggleTick(st, polls[0], t);
    assert AllHold(polls[1..], t) && NoReset(polls[1..]) by {
      forall p | 0 <= p < |polls| - 1 ensures polls[1..][p] == polls[p + 1] { }
    }
    HeldKeyChangesNothing(Tick(st, polls[0]), polls[1..], t);
  }

  /**
   * Pressing a toggle key three times (released in between) takes its
   * switch through the next two positions and back: 1, 2, 3, 1 with the
   * channel at 500, 1000, 1500, 500.
   */
  lemma ThreePressesCycle(st: KeyboardState, t: nat)
    requires Valid(st) && t < SwitchCount && ToggleKey(t) !in st.pressed
    ensures var k := ToggleKey(t);
            var s1 := Tick(st, {k});
            var s3 := Tick(Tick(s1, {}), {k});
            var s5 := Tick(Tick(s3, {}), {k});
            && s1.switches[t] == Next(st.switches[t]) && s1.control[ToggleChannel(t)] == 500 * Next(st.switches[t])
            && s3.switches[t] == Next(Next(st.switches[t])) && s3.control[ToggleChannel(t)] == 500 * Next(Next(st.switches[t]))
            && s5.switches[t] == st.switches[t] && s5.control[ToggleChannel(t)] == st.control[ToggleChannel(t)]
  {
    var k := ToggleKey(t);
    var s1 := Tick(st, {k});
    ToggleTick(st, {k}, t);
    var s2 := Tick(s1, {});
    ToggleTick(s1, {}, t);
    var s3 := Tick(s2, {k});
    ToggleTick(s2, {k}, t);
    var s4 := Tick(s3, {});
    ToggleTick(s3, {}, t);
    var s5 := Tick(s4, {k});
    ToggleTick(s4, {k}, t);
  }
}
