# SBUS keyboard transmitter and monitor, in Dafny

The modelled system turns a PC keyboard into an SBUS radio transmitter.
Two scripts hold 16 channel values and poll the keyboard:

- `main.py` is a GUI application that also monitors the port.
- `sbus_controller.py` is a plain loop.

On each poll the scripts ramp the four stick channels, snap CH6 to an
extreme, cycle three-position switches on key press edges, or reset
everything. They then pack the channels into the 25-byte SBUS frame and
write it to a serial port. The receiving side has two parts:

- `sbus_monitor.py` decodes 25-byte reads and shows each channel as a
  clamped PWM value.
- `main.py` also collects a text line stream from the port.

The Dafny project models:

- **`PyBits`**: Python's `>>` and `&` with a low mask on unbounded
  integers, and `<<` and `|` on non-negative integers, the only operands
  the source gives them.
- **`BitStream`**: a generic description of values laid end to end as bit
  fields. It is the reference against which the hand-written shifts and
  masks are proved.
- **`SbusCodec`**: `EncodeFrame`, the 25 values that `convert_data`
  computes, and `DecodeSbusData`, the decoder. The two scripts that decode
  have the same body, so one function models both. Proved about them:
  - the frame layout;
  - bytes in range;
  - the decode-of-encode round trip;
  - that only the low 11 bits of a channel matter;
  - locality of a channel change;
  - that the decoder reads only bytes 1-17.
- **`FrameWriter`**: `convert_data` as the 25 in-place writes into the
  `data` list, proved to store `EncodeFrame`.
- **`InputMapper`**: one keyboard poll as a function on values (`Tick`),
  with:
  - the state invariant;
  - the debounce properties;
  - the reset;
  - a proof that the two scripts' different phase orders agree.
- **`ControllerMonitorApp`**: the mutable state of `main.py`'s
  `SBUSControllerMonitorApp`, as a class with arrays. Its `CheckKeyboard`
  is proved to follow `Tick`. Its reset allocates new arrays, as the
  source rebinds new lists.
- **`SbusController`**: the module globals of `sbus_controller.py`, as a
  class. Its `CheckKeybord` is proved to follow `ControllerTick`, and its
  reset writes into the same arrays.
- **`LineAssembler`**: the byte-to-line assembly of `serial_receive_loop`,
  as a step function, a fold and the loop. It is proved equal to an
  independent "cut at line feeds, drop blank pieces" description.
- **`SbusMonitor`**: the 25-byte gate and the PWM clamp of
  `monitor_serial`, with end-to-end lemmas from keyboard state to
  displayed value.

Keys are `char`s, because every key the scripts poll is one character. The
keyboard library is replaced by the set of keys held during a poll.

Two behaviours of the code worth noting:

- The monitor does not buffer short reads. A read of other than 25 bytes
  is dropped.
- The reset does not clear the debounce set. It only records `R`.

## Model

| member | source | states |
|---|---|---|
| PyBits.Shr | main.py:253-274 | Python `x >> n` as floor division by 2^n; non-negative for a non-negative operand |
| PyBits.And | main.py:253-274 | Python `x & (2^n - 1)` is the low n bits, at most the mask |
| PyBits.Shl | main.py:254-274 | Python `x << n` on a non-negative operand: never below `x`, and equal to it only when n or x is 0 |
| PyBits.ShrUndoesShl | main.py:254-274 | `(x << n) >> n` gives `x` back, and `x << n` has its low n bits clear |
| PyBits.Or | main.py:254-274 | Python `x \| y` on non-negative integers, computed bit by bit; OrBounds bounds it and OrDisjoint proves it is the sum when the bits do not overlap |
| PyBits.OrBounds | main.py:254-274 | Python `x \| y` is never below either operand and never above their sum |
| PyBits.OrDisjoint | main.py:254 | `x \| (y << n)` equals `x + y * 2^n` when x has fewer than n bits, as in every `\|` of the encoder |
| SbusCodec.EncodeFrame | main.py:245-277 | the 25 values `convert_data` computes, with header 0x0F and flag and footer 0; always 25 entries |
| SbusCodec.EncodedByteIsPacked | main.py:250-273 | each hand-written payload byte equals the byte a generic 11-bit little-endian bit writer produces at that position |
| SbusCodec.PayloadIsChannelStream | sbus_controller.py:50-72 | the 22 payload bytes read as a bit stream are the 16 channels' 11-bit fields end to end, channel 1 first |
| SbusCodec.FrameBitLayout | sbus_controller.py:50-72 | payload bit j is bit j mod 11 of channel j div 11 |
| SbusCodec.FrameIsBytes | main.py:249-277 | whatever the channels, the header is 0x0F, flag and footer are 0, and every entry is in 0-255 |
| SbusCodec.DecodeSbusData | main.py:345-364 | None exactly when fewer than 25 bytes; otherwise 12 values, each in 0-2047 (sbus_monitor.py's decoder has the same body) |
| SbusCodec.DecodeReadsFields | main.py:350-362 | decoded channel j is the 11-bit field a generic bit reader finds at payload bit 11j |
| SbusCodec.RoundTrip | main.py:345-364 | decoding an encoded frame gives back channels 1-12 modulo 2048 |
| SbusCodec.RoundTripInRange | sbus_monitor.py:128-157 | channels 1-12 within 0-2047 come back unchanged |
| SbusCodec.EncodeUsesLow11Bits | sbus_controller.py:44-75 | frames of channel vectors that agree in their low 11 bits are identical, so out-of-range values wrap silently |
| SbusCodec.EncodeIsolation | sbus_controller.py:50-72 | changing one channel leaves every payload byte that holds none of its bits unchanged |
| SbusCodec.DecodeIgnoresOtherBytes | sbus_monitor.py:128-157 | inputs that agree on bytes 1-17 decode alike: header, flag, footer and bytes 18-22 are never checked |
| FrameWriter.WriteFrame | main.py:245-277 | after the 25 writes the list holds exactly `EncodeFrame` of the channels |
| FrameWriter.WriteBytes1To5 | sbus_controller.py:51-55 | these writes set bytes 1-5 to the frame's bytes and change no other entry |
| FrameWriter.WriteBytes6To11 | sbus_controller.py:56-61 | these writes set bytes 6-11 to the frame's bytes and change no other entry |
| FrameWriter.WriteBytes12To16 | sbus_controller.py:62-66 | these writes set bytes 12-16 to the frame's bytes and change no other entry |
| FrameWriter.WriteBytes17To22 | sbus_controller.py:67-72 | these writes set bytes 17-22 to the frame's bytes and change no other entry |
| InputMapper.Level | main.py:325 | switch position s stands for 500·s |
| InputMapper.Next | main.py:324 | `s % 3 + 1` is always 1-3 and cycles 1→2→3→1 |
| InputMapper.InitialControl | main.py:25-29 | CH1-CH4 and CH6 start at the centre 1000 and every switch channel at the level of position 1; InitialValid states that this start keeps the invariant |
| InputMapper.Ramp | main.py:293-296 | one stick block: the value moves by at most 10, rises exactly when the increase key is held and it is below 1680, falls exactly when only the decrease key is held and it is above 360; RampInRange and StickTick build on it |
| InputMapper.AnalogPhase | main.py:292-311 | CH1-CH4 ramp and no other channel changes |
| InputMapper.AileronPhase | main.py:313-317 | `q` gives CH6 = 360, else `e` gives 1680, else CH6 stays; no other channel changes |
| InputMapper.ToggleKey | main.py:282-287 | the toggle keys '0'-'9' and '-', none of them the reset key |
| InputMapper.ToggleChannel | main.py:282-287 | toggle entry t drives CH5 or one of CH7-CH16 |
| InputMapper.ToggleMapIsRegular | main.py:282-287 | the literal `toggle_map` is the table that ToggleKey and ToggleChannel describe |
| InputMapper.ToggleStep | main.py:320-327 | one entry of the toggle loop: on a press edge its switch advances and its channel takes the new level, otherwise switches and channels stay; no other switch or channel changes; its key is recorded exactly when held and no other key's record changes. ToggleUpToEffect and ToggleTick lift this to the whole loop and the whole poll |
| InputMapper.ResetPhase | main.py:330-339 | on a press edge of `R` the channels and switches are the initial ones, otherwise they stay; `R` is recorded exactly when held and no other record changes. ResetTick and HeldResetDoesNothing lift this to the whole poll |
| InputMapper.Tick | main.py:289-341 | one poll of `check_keyboard`, ending with `R` recorded exactly when it is held. Its properties are the lemmas TickPreservesValid, StickTick, AileronTick, ToggleTick, ReleaseForgets, ResetTick and HeldResetDoesNothing |
| InputMapper.ControllerTick | sbus_controller.py:77-168 | one call of `CheckKeybord` in that script's phase order, ending with `R` recorded exactly when it is held; TickOrdersAgree proves it equal to Tick, so every Tick lemma holds for it |
| InputMapper.ToggleUpToEffect | main.py:320-327 | after the first n toggle entries: a switch advances and its channel takes the new level exactly on its key's press edge; the stick and CH6 channels stay; visited keys are recorded exactly when held; other keys' records stay |
| InputMapper.InitialValid | main.py:25-32 | the initial state keeps the invariant, with every switch at 1 and its channel at 500 |
| InputMapper.ValidChannelsInRange | main.py:289-341 | in any state that keeps the invariant, every channel is in 360-1680 |
| InputMapper.RampInRange | main.py:293-311 | the ramp keeps a multiple of 10 in 360-1680 there and moves it by -10, 0 or +10 |
| InputMapper.TickPreservesValid | main.py:289-341 | every poll keeps the invariant: switches 1-3 with channels at their level, sticks multiples of 10 in 360-1680, CH6 in {360, 1000, 1680} |
| InputMapper.RunPreservesValid | main.py:289-341 | the invariant holds after any sequence of polls |
| InputMapper.StickTick | main.py:293-311 | without a reset edge, a poll moves stick i by Ramp: the increase key wins, and the step is 0 or ±10 |
| InputMapper.AileronTick | main.py:313-317 | without a reset edge, CH6 ends at 360 for `q`, else 1680 for `e`, else unchanged |
| InputMapper.ToggleTick | main.py:320-327 | without a reset edge, a switch advances and its channel takes the new level exactly on its key's press edge, and the key is recorded exactly while held |
| InputMapper.ReleaseForgets | main.py:326-327 | a released toggle key is dropped from the debounce set |
| InputMapper.ResetTick | main.py:330-337 | on a press edge of `R`, all channels and switches are back at their initial values, whatever else was pressed |
| InputMapper.ResetOverridesToggle | main.py:320-337 | a toggle pressed in the same poll as the reset edge ends at position 1 with its channel at 500 |
| InputMapper.HeldResetDoesNothing | main.py:330-339 | holding `R` after its press edge adds nothing to the other phases |
| InputMapper.TickOrdersAgree | sbus_controller.py:77-168 | the controller's order (sticks, toggles, CH6, reset) gives the same poll as main.py's (sticks, CH6, toggles, reset) |
| InputMapper.HeldKeyChangesNothing | main.py:320-327 | on polls that never hold `R`, a recorded toggle key held on every poll changes neither its switch nor its channel, and stays recorded |
| InputMapper.HoldingChangesOnce | main.py:320-327 | on polls that never hold `R`, holding a toggle key over one or more polls changes its switch exactly once if it was not recorded, and never if it was |
| InputMapper.ThreePressesCycle | main.py:320-327 | three separate presses take a switch through the next two positions and back, with the channel at 500 × position |
| ControllerMonitorApp.SbusControllerMonitorApp.constructor | main.py:25-32 | the arrays start with CH1-CH4 and CH6 at 1000, the others at 500, an all-zero frame, switches at 1 and no key recorded |
| ControllerMonitorApp.NewInitialControl | main.py:333-336 | `[1000] * 16` with CH5 and CH7-CH16 set to 500 is a new list holding the initial channels |
| ControllerMonitorApp.SbusControllerMonitorApp.ConvertData | main.py:245-277 | `data` holds the frame of the current channels: header 0x0F, flag and footer 0, all entries bytes |
| ControllerMonitorApp.SbusControllerMonitorApp.CheckKeyboard | main.py:289-341 | one loop iteration moves the state as `Tick`; the frame buffer is untouched; the arrays are new exactly on a reset edge and the same otherwise |
| ControllerMonitorApp.SbusControllerMonitorApp.PollSticks | main.py:292-317 | the stick blocks and the CH6 block change `control` as AileronPhase(AnalogPhase(...)) |
| ControllerMonitorApp.SbusControllerMonitorApp.PollStick | main.py:293-296 | one stick block changes only its channel, to its Ramp value |
| ControllerMonitorApp.SbusControllerMonitorApp.PollToggles | main.py:320-327 | the loop over `toggle_map` moves the state as TogglePhase |
| ControllerMonitorApp.SbusControllerMonitorApp.PollReset | main.py:330-339 | the reset block moves the state as ResetPhase, with new lists exactly on the press edge |
| SbusController.SbusControllerScript.constructor | sbus_controller.py:9-38 | the module's initial state: an all-zero frame, the initial channels, switches at 1 and no key recorded |
| SbusController.SbusControllerScript.InitialChannels | sbus_controller.py:10-31 | `[0] * 16` followed by the 16 assignments gives the initial channels |
| SbusController.SbusControllerScript.SetFlightChannels | sbus_controller.py:14-19 | CH1-CH4 and CH6 become 1000 and CH5 500; the rest are unchanged |
| SbusController.SbusControllerScript.SetSwitchChannels | sbus_controller.py:22-31 | CH7-CH16 become 500; the rest are unchanged |
| SbusController.SbusControllerScript.ConvertData | sbus_controller.py:44-75 | `data` holds the frame of the current channels: header 0x0F, flag and footer 0, all entries bytes |
| SbusController.SbusControllerScript.CheckKeybord | sbus_controller.py:77-168 | one call moves the state as `ControllerTick` in place |
| SbusController.SbusControllerScript.PollStick | sbus_controller.py:81-88 | one stick block changes only its channel, to its Ramp value |
| SbusController.SbusControllerScript.PollToggles | sbus_controller.py:135-144 | the loop over `toggle_map` moves the state as TogglePhase |
| SbusController.SbusControllerScript.ResetInPlace | sbus_controller.py:158-165 | the reset loops leave the same two lists holding the initial channels and switches |
| SbusController.SbusControllerScript.LoopStep | sbus_controller.py:170-176 | one main-loop pass moves the state as `ControllerTick` and writes exactly the frame of the new channels |
| LineAssembler.DecodeByte | main.py:384 | a lone byte below 0x80 decodes to its ASCII character, any other byte to nothing |
| LineAssembler.StripLeading | main.py:388 | strips leading whitespace: what remains is a suffix starting with a non-space, and everything removed is whitespace |
| LineAssembler.StripTrailing | main.py:388 | strips trailing whitespace: what remains is a prefix ending with a non-space, and everything removed is whitespace |
| LineAssembler.StripEmptyIffBlank | main.py:388 | `text_buffer.strip()` is non-empty exactly when the buffer has a non-whitespace character |
| LineAssembler.Strip | main.py:388 | `str.strip()`: the result is no longer than the input and neither starts nor ends with whitespace; StripEmptyIffBlank states when it is empty |
| LineAssembler.Step | main.py:384-397 | one byte: a shown line is exactly the old buffer, it is shown only for a line feed, and it empties the buffer; otherwise the buffer is emptied or extended, never by more than one character. LineFeedCompletes, IgnoredBytes and OtherBytesAppend split it by byte |
| LineAssembler.Assemble | main.py:375-397 | the lines shown and the buffer left after a stream of bytes: at most one line per line feed and no more buffered characters than bytes; AssembledLinesAreClean and AssembleIsSplit state what the lines are |
| LineAssembler.ReceiveLoop | main.py:375-397 | the loop's shown lines and final buffer are `Assemble` of the bytes received |
| LineAssembler.LineFeedCompletes | main.py:387-391 | a line feed empties the buffer and shows it, unchanged, exactly when it has a visible character |
| LineAssembler.IgnoredBytes | main.py:393-394 | a carriage return, or a byte of 0x80 or more, changes nothing and shows nothing |
| LineAssembler.OtherBytesAppend | main.py:396-397 | any other byte appends its character and shows nothing |
| LineAssembler.StepKeepsNoBreaks | main.py:386-398 | a buffer without CR or LF stays so, and a line it completes has none |
| LineAssembler.AssembledLinesAreClean | main.py:375-397 | no shown line and no leftover buffer contains CR or LF, and every shown line has a visible character |
| LineAssembler.NonBlank | main.py:388-389 | keeps only the pieces with a visible character |
| LineAssembler.SplitAppendChar | main.py:396-397 | a character other than LF extends the last unfinished piece |
| LineAssembler.SplitAppendLineFeed | main.py:387-391 | LF closes the last piece |
| LineAssembler.AssembleIsSplit | main.py:375-397 | the shown lines are the non-blank LF-terminated pieces of the text with CR dropped, in order, and the buffer is the piece after the last LF |
| SbusMonitor.PwmInRange | sbus_monitor.py:176-177 | the displayed value is in 500-1500 and equals value + 512 whenever that is in range, else the nearer bound |
| SbusMonitor.PwmMonotone | sbus_monitor.py:176-177 | a larger channel value never shows as a smaller PWM value |
| SbusMonitor.PwmValue | sbus_monitor.py:176-177 | `max(500, min(1500, value + 512))` always lies in 500-1500; PwmInRange and PwmMonotone state the rest |
| SbusMonitor.PwmValues | sbus_monitor.py:174-177 | one PWM value per channel, in order |
| SbusMonitor.MonitorFrame | sbus_monitor.py:165-177 | something is shown exactly when the read returned 25 bytes, and then 12 values |
| SbusMonitor.ShownRange | sbus_monitor.py:172-177 | each shown value is the PWM value of its decoded channel, in 512-1500 |
| SbusMonitor.ShowsDecoded | sbus_monitor.py:165-177 | a 25-byte read shows the PWM values of what it decodes to |
| SbusMonitor.ShowsTransmitted | sbus_monitor.py:165-177 | a transmitted frame of in-range channels shows channels 1-12 as min(1500, value + 512) |
| SbusMonitor.HighChannelsSaturate | sbus_monitor.py:176-177 | a transmitted channel of 988 or more shows as 1500, including the neutral 1000 |
| SbusMonitor.ShowsKeyboardState | sbus_monitor.py:165-177 | for any state that keeps the keyboard invariant, its frame is made of bytes and shows the PWM values of CH1-CH12 |

## Left out

- GUI: widgets, labels, the progress bars and their floating-point normalisation, `update_gui`, the hex log line of the monitor and the guide tab.
- Serial I/O. Port opening and closing, `in_waiting`, timeouts and `write` are not modelled. `SbusController.SbusControllerScript.LoopStep` returns the bytes it would write. `LineAssembler.ReceiveLoop` takes the bytes that reads returned, one per read; an empty read changes nothing in the source.
- Threads and timing: the `running` flag, the sleeps, and the races between `check_keyboard`, `main_loop` and `serial_receive_loop` in `main.py`. For example, `convert_data` may read `control` while the keyboard thread is writing it or rebinding it on a reset. Each method here runs atomically.
- The keyboard library. `keyboard.is_pressed` is replaced by one set of held keys per poll, read once. The source polls each key at a slightly different instant. `'R'` is treated as one key; any modifier handling by the library is not modelled.
- `print` output, and the `try`/`except` blocks. No operation in the model can fail.
- `main_loop` of `main.py`, apart from `convert_data`: it only writes the frame and refreshes the GUI.
- LineAssembler.ReceiveLoop: a shown line is given without the line feed that the monitor text widget appends.
- LineAssembler.DecodeByte: models UTF-8 decoding of a single byte only, since the source never decodes more than one byte at a time.
