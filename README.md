# PS/2 keyboard decoder, modelled in Dafny

The firmware reads a PS/2 keyboard (scan code set 2) by polling its clock and
data lines. On every falling clock edge it samples one bit. A frame is eleven
bits: a start bit, eight data bits least significant first, an odd-parity bit
and a stop bit. After the eleventh bit the decoder checks parity and interprets
the scan code. The interpreter keeps a modifier bitset (left and right shift,
ctrl, alt and "mod") and two one-shot prefix flags: extended (`0xE0`) and
release (`0xF0`). Every scan code produces a character, a qualified
character, a special key or nothing.

The model has six modules:

- `Wrappers`: the `Option` type.
- `Scancodes`: the pure lookup `char_from_scancode`. It is `CharFromScancode`, split into the
  letter table (`LetterOf`, with its inverse `LetterKey`) and the table of the remaining keys
  (`SymbolOf`).
- `Frames`: the frame assembler as a pure function `Clock` of its locals (`packet`,
  `bits_received`, `code`, `parity`, `lst_clk`), with the invariant `Holds`, which ties
  those locals to the exact bits sampled since the last frame. It also has the odd-parity
  test `ParityFails` and `EncodeFrame`, the frame a well-behaved keyboard sends for a code,
  which serves as the reference against which decoding is proved.
- `Interpreter`: the scan-code interpreter as a pure function `Interpret`, over the modifier
  bitset and the two flags.
- `Decoder`: one iteration of the polling loop as the pure function `Poll`, a finite stretch
  of it as `PollAll`, and the class `Ps2Decoder`. The class holds the loop's locals as
  fields. Its `Step` method updates them in place in the same order as the loop body, and
  it is proved equal to `Poll`. `Run` loops `Step` over a finite sequence of line samples.
- `Console`: the text the firmware writes for each event (`<C-x>`, `<M-x>`, `<S-x>`,
  `[ESC]`, the rub-out bytes, the self-test line and the parity warning).

Points where the model follows the code to the letter:

- Parity fails when the number of ones in `code` has the same parity as the
  parity bit (`src/main.rs:306`). A frame therefore passes exactly when its data bits
  and its parity bit hold an odd number of ones. The code is still interpreted after a
  parity failure.
- Escape (`0x76`) and the self-test code (`0xAA`) produce their event even after a release
  prefix. Only backspace (`0x66`) checks that no release is pending.
- Shift (`0x12`, `0x59`) and the mod keys (`0x1F`, `0x27`) ignore the extended flag. Ctrl
  (`0x14`) and alt (`0x11`) choose their right-hand bit exactly when it is set.
- `packet` is a `u16` that `<<= 1` wraps. The model keeps it as a number reduced modulo
  2^16 after each shift. Since a frame has only eleven bits it never actually wraps, and
  `Holds` records its exact value.
- `lst_clk` starts low and takes the clock level on every iteration, edge or not.

## Model

| member | source | states |
|---|---|---|
| Scancodes.LetterOf | src/main.rs:65-93 | every letter key maps to a lower-case letter |
| Scancodes.LetterKey | src/main.rs:65-93 | each lower-case letter has a key that the letter table maps back to it |
| Scancodes.CharFromScancode | src/main.rs:64-163 | a letter key gives its letter, upper-cased exactly when shift is held; a code in neither table gives '?'; space, enter, the keypad and tab give a mapped, non-letter character |
| Scancodes.SymbolOf | src/main.rs:99-162 | a code in neither the symbol row nor the shift-free set gives '?'; space, enter, the keypad and tab give a mapped non-letter; the symbol row unshifted gives a mapped non-letter |
| Scancodes.LetterKeys | src/main.rs:65-97 | all 26 letter keys give the lower-case letter unshifted and the upper-case letter shifted |
| Scancodes.LetterKeyInverse | src/main.rs:65-93 | the letter table is one-to-one: the key of a key's letter is that key |
| Scancodes.ShiftFreeKeys | src/main.rs:120-161 | space, enter, the keypad keys and tab give the same character whatever the shift state |
| Scancodes.ShiftedKeys | src/main.rs:95-141 | letters and the symbol row give a different character when shifted |
| Frames.Cleared | src/main.rs:254-258 | the reset frame locals hold no received bits, with the given clock level |
| Frames.IsFallingEdge | src/main.rs:289 | a falling edge: the clock was high on the previous iteration and is low now |
| Frames.Popcount | src/main.rs:306 | the number of set bits of the code (`count_ones`), at most 8 |
| Frames.PopcountComplement | src/main.rs:306 | a byte and its complement have eight set bits between them |
| Frames.ParityFails | src/main.rs:306 | the check fails exactly when the data ones plus the parity bit are even in number |
| Frames.OddParityBit | src/main.rs:306 | for every code exactly one parity bit passes the check |
| Frames.EncodeFrame | src/main.rs:291-302 | the reference frame: start bit low, data bits least significant first in bits 1..8, the passing parity bit in bit 9, stop bit high |
| Frames.Sample | src/main.rs:290-303 | a sample counts one more bit and leaves the clock level alone |
| Frames.Clock | src/main.rs:287-305 | no falling edge changes only `lst_clk`; a frame completes exactly on the falling edge that brings the count to 11, and it then resets `packet`, `parity`, `bits_received` and `code`; otherwise an edge increments the count, and the count stays below 11 |
| Frames.PacketValue | src/main.rs:291-292 | the bits shifted into `packet` form a numeral below 2^n |
| Frames.OrInBit | src/main.rs:296 | or-ing in the mask of bit k sets bit k and no other |
| Frames.SamplePacket | src/main.rs:291-292 | shift-and-or appends the bit to the numeral `packet` holds, without wrap-around |
| Frames.SampleSetsBit | src/main.rs:295-297 | on frame bits 1..8 the data bit is or-ed into bit position `bits_received - 1` of `code` |
| Frames.SetBitHolds | src/main.rs:294-297 | setting the next data bit keeps `code` equal to the data bits received |
| Frames.KeepBitHolds | src/main.rs:294-297 | a zero data bit, or a bit outside positions 1..8, leaves `code` equal to the data bits received |
| Frames.SampleCode | src/main.rs:294-297 | after any sample, bit i of `code` is set exactly when frame bit i+1 was received and high |
| Frames.SampleHolds | src/main.rs:290-303 | a sample extends the bits the locals hold by the sampled bit |
| Frames.ClockHolds | src/main.rs:287-305 | no edge keeps the bits held; an edge appends the data bit; the eleventh edge completes a frame whose code holds data bits 1..8 and whose parity is bit 9, and the locals then hold no bits |
| Frames.CodeDetermined | src/main.rs:294-297 | the received data bits determine the code |
| Frames.SingleBitErrorDetected | src/main.rs:306 | flipping any one data bit of a frame makes its parity check fail |
| Frames.CodeValue | src/main.rs:294-297 | the assembled code equals the sum of frame bit i times 2^(i-1), for i = 1..8 |
| Interpreter.ModifierMask | src/main.rs:331-346 | exactly the six modifier codes have a mask; each mask is one bit; 0x12 and 0x59 are shift, 0x14 ctrl, 0x11 alt, 0x1F and 0x27 mod; ctrl and alt take the right-hand bit exactly when extended; the other four ignore extended, with 0x59 and 0x27 right-hand |
| Interpreter.HandleBitset | src/main.rs:310-318 | the mask bit is set on press and cleared on release; no other bit changes |
| Interpreter.KeyEvent | src/main.rs:364-375 | the event carries the character; ctrl wins over alt, alt over mod, and a plain character needs none of the three |
| Interpreter.TerminalEvent | src/main.rs:348-377 | escape on 0x76 and self-test on 0xAA whatever the flags; backspace on 0x66 only without a pending release; otherwise a key event exactly when neither flag is set, with the character looked up under the any-shift flag |
| Interpreter.Interpret | src/main.rs:320-383 | 0xE0 and 0xF0 set their own flag, keep the other and yield nothing; every other code clears both flags; modifier codes update only their bit and yield nothing; other codes leave the bitset alone |
| Interpreter.InterpretEvents | src/main.rs:348-377 | the event of a completed code: escape, backspace and self-test as above; a key event exactly for a printable code with no flag pending, looked up with the any-shift flag and qualified by the held modifiers |
| Interpreter.InterpretAll | src/main.rs:320-383 | one event per completed code |
| Interpreter.PrefixIndependentModifiers | src/main.rs:331-346 | only ctrl and alt depend on the extended flag |
| Interpreter.MasksDistinct | src/main.rs:265-273 | no two modifier keys share a bit |
| Interpreter.LeftCtrlPressRelease | src/main.rs:326-338 | 0x14, 0xF0 0x14 leaves left ctrl clear, other bits unchanged, no flag pending and no event |
| Interpreter.RightCtrlPressRelease | src/main.rs:322-336 | 0xE0 0x14, 0xE0 0xF0 0x14 does the same for right ctrl |
| Interpreter.ExtendedKeyDistinct | src/main.rs:364 | 0x75 types '8', but after 0xE0 it yields nothing |
| Interpreter.LetterAShifted | src/main.rs:364-373 | 0x1C types 'a', and 'A' with left shift held |
| Interpreter.EnterKey | src/main.rs:139 | 0x5A with nothing held types a newline and changes no state |
| Decoder.Poll | src/main.rs:287-390 | a sample that is no edge only records the clock level; a completed frame gives its code, the parity verdict on its parity bit and the interpreter's event and new state; with no frame the interpreter state is untouched |
| Decoder.PollAll | src/main.rs:280-392 | a finite stretch of the loop completes at most one frame per sample and ends with the last clock level recorded |
| Decoder.PollAllAppend | src/main.rs:280-392 | polling two stretches in turn gives the state and the outputs of polling them together |
| Decoder.PollRepeat | src/main.rs:287-290 | a further sample at the clock level last seen changes neither the state nor the outputs, whatever the data line reads |
| Decoder.PollBit | src/main.rs:287-290 | a bit clocked out high-then-low is one non-edge sample and one falling edge |
| Decoder.FeedBit | src/main.rs:287-303 | one more bit short of a frame appends that bit and emits nothing |
| Decoder.FeedPartial | src/main.rs:287-305 | fewer than eleven bits emit nothing, leave the interpreter state alone and leave the locals holding exactly those bits |
| Decoder.FeedFrame | src/main.rs:287-390 | eleven bits from a frame boundary emit exactly one output, whose code holds data bits 1..8 and whose parity verdict is on bit 9; its event and the new interpreter state are the interpreter's; the assembler is reset |
| Decoder.FrameCodeValue | src/main.rs:294-297 | the emitted code is the sum of frame bit i times 2^(i-1), for i = 1..8 |
| Decoder.FrameRoundTrip | src/main.rs:291-321 | the reference frame of any code decodes back to that code, with no parity failure and that code's event |
| Decoder.ParityFailureReported | src/main.rs:306-321 | the same frame with its parity bit inverted decodes to the same code and event, with a parity failure |
| Decoder.StartStopIgnored | src/main.rs:295-302 | the start bit and the stop bit do not affect what a frame decodes to |
| Decoder.EnterKeyFromPowerOn | src/main.rs:254-390 | from power-on, the frame for 0x5A gives a newline with no parity failure, and with its parity bit inverted gives a newline with a parity failure |
| Decoder.Ps2Decoder.constructor | src/main.rs:254-263 | all locals start cleared, with the clock last seen low |
| Decoder.Ps2Decoder.HandleScancode | src/main.rs:310-383 | the in-place update of the bitset and flags, and its event, are `Interpret`'s |
| Decoder.Ps2Decoder.NonModifierEvent | src/main.rs:348-377 | the special-key and printable-key branches give `TerminalEvent` |
| Decoder.Ps2Decoder.ShiftIn | src/main.rs:290-303 | the in-place sample is `Sample`, and the bit is appended to the bits received |
| Decoder.Ps2Decoder.FinishFrame | src/main.rs:305-388 | reports the parity verdict and the interpreter's event, applies the interpreter's new state and clears the frame locals |
| Decoder.Ps2Decoder.Step | src/main.rs:287-390 | the in-place iteration leaves the locals and the output `Poll` gives, and keeps the invariant that the locals hold fewer than eleven received bits |
| Decoder.Ps2Decoder.Run | src/main.rs:280-392 | a finite stretch of the polling loop leaves the locals and outputs that `PollAll` gives, keeping the invariant |
| Console.Render | src/main.rs:349-375 | nothing is written exactly for no event; a character alone; a qualified character as five characters that open with `<` and end with the character and `>` |
| Console.RenderOutput | src/main.rs:306-308 | the parity warning comes first when the check failed, followed by the event's text |
| Console.TranscriptAppend | src/main.rs:306-375 | the text of consecutive frames is the concatenation of their texts |
| Console.TranscriptOfPolling | src/main.rs:280-392 | the console text of two stretches of polling is the text of the first followed by that of the second |
| Console.RenderInjective | src/main.rs:349-375 | different events are written differently |
| Console.RenderOutputInjective | src/main.rs:306-375 | the text of a frame determines its parity verdict and its event |

## Left out

- `send_byte` (`src/main.rs:165-219`), host-to-keyboard transmission: the code comments mark it as not working, and it is pin bit-banging with busy waits.
- The console itself (`src/main.rs:18-62`, `224-228`): the serial port and the `print!`, `println!`, `print_bytes!` and `dbg!` macros. Output is modelled as event values plus their text, as characters rather than the UTF-8 bytes `ufmt` would send (so `£` is one character).
- The interrupt-free critical sections and the `Mutex`/`RefCell` pin statics (`src/main.rs:19-20`, `221-222`, `281-285`): the model is single-threaded.
- Peripheral, serial and pin setup and the power pin (`src/main.rs:232-246`): hardware initialisation.
- The endless `loop` (`src/main.rs:280`): modelled by `Run` and `PollAll` over a finite sequence of samples.
- The two reads of the data pin on one edge (`src/main.rs:290`, `301`): both reads are taken as the same sampled level.
- The integer type of `bits_received`: it never exceeds 11, so it is modelled as an unbounded natural number.
