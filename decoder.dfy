/**
 * The whole decoder: the frame assembler feeding the scan-code interpreter,
 * once as a pure function of the state (`Poll`, `PollAll`) and once as the
 * object that the polling loop updates in place (`Ps2Decoder`).
 */
module Decoder {
  import opened Wrappers
  import opened Frames
  import opened Interpreter
  import opened Scancodes

  /** Every local the polling loop keeps between iterations. */
  datatype State = State(frame: Assembler, keys: Keys)

  /** The state the loop starts in. */
  const PowerOn: State := State(Cleared(false), NoKeys)

  /** What a completed frame yields: its code, whether its parity check failed, and its event. */
  datatype Output = Output(code: bv8, parityFail: bool, event: Event)

  /** The two line levels read on one polling iteration. */
  datatype Lines = Lines(clock: bool, data: bool)

  /**
   * One polling iteration: the assembler samples the lines; a completed frame
   * is checked for parity and interpreted, whatever the outcome of the check.
   */
  function Poll(s: State, clk: bool, dat: bool): (r: (State, Option<Output>))
    ensures r.0.frame == Clock(s.frame, clk, dat).0
    // a sample that is no falling edge only records the clock level
    ensures !IsFallingEdge(s.frame.lastClock, clk) ==> r == (State(s.frame.(lastClock := clk), s.keys), None)
    ensures r.1.Some? <==> Clock(s.frame, clk, dat).1.Some?
    ensures r.1.None? ==> r.0.keys == s.keys
    ensures r.1.Some? ==>
              var f := Clock(s.frame, clk, dat).1.value;
              r.1.value.code == f.code
              && r.1.value.parityFail == ParityFails(f.code, f.parity)
              && (r.0.keys, r.1.value.event) == Interpret(s.keys, f.code)
  {
    var c := Clock(s.frame, clk, dat);
    match c.1
    case None => (State(c.0, s.keys), None)
    case Some(f) =>
      var i := Interpret(s.keys, f.code);
      (State(c.0, i.0), Some(Output(f.code, ParityFails(f.code, f.parity), i.1)))
  }

  /** A finite stretch of the polling loop, collecting the outputs of completed frames. */
  function PollAll(s: State, input: seq<Lines>): (r: (State, seq<Output>))
    // at most one completed frame per sample, and the last clock level is recorded
    ensures |r.1| <= |input|
    ensures input != [] ==> r.0.frame.lastClock == input[|input| - 1].clock
    decreases |input|
  {
    if input == [] then (s, [])
    else
      var before := PollAll(s, input[..|input| - 1]);
      var last := Poll(before.0, input[|input| - 1].clock, input[|input| - 1].data);
      (last.0, before.1 + if last.1.Some? then [last.1.value] else [])
  }

  /** The lines of a device clocking out `bits`: per bit, clock high then clock low, data held. */
  function Waveform(bits: seq<bool>): (w: seq<Lines>)
    ensures |w| == 2 * |bits|
  {
    if bits == [] then []
    else Waveform(bits[..|bits| - 1]) + [Lines(true, bits[|bits| - 1]), Lines(false, bits[|bits| - 1])]
  }

  lemma WaveformSnoc(bits: seq<bool>, b: bool)
    ensures Waveform(bits + [b]) == Waveform(bits) + [Lines(true, b), Lines(false, b)]
  {
  }

  lemma PollAllSnoc(s: State, input: seq<Lines>, x: Lines)
    ensures PollAll(s, input + [x]) ==
              var before := PollAll(s, input);
              var last := Poll(before.0, x.clock, x.data);
              (last.0, before.1 + if last.1.Some? then [last.1.value] else [])
  {
  }

  /** Polling two stretches of samples in turn is polling them together. */
  lemma {:induction false} PollAllAppend(s: State, a: seq<Lines>, b: seq<Lines>)
    ensures PollAll(s, a + b) ==
              (PollAll(PollAll(s, a).0, b).0, PollAll(s, a).1 + PollAll(PollAll(s, a).0, b).1)
    decreases |b|
  {
    var mid := PollAll(s, a);
    if b == [] {
      assert a + b == a;
      assert mid.1 + [] == mid.1;
    } else {
      var init, x := b[..|b| - 1], b[|b| - 1];
      assert b == init + [x];
      assert a + b == (a + init) + [x];
      PollAllAppend(s, a, init);
      PollAllSnoc(s, a + init, x);
      PollAllSnoc(mid.0, init, x);
      var r := PollAll(mid.0, init);
      var last := Poll(r.0, x.clock, x.data);
      var extra := if last.1.Some? then [last.1.value] else [];
      assert PollAll(mid.0, b) == (last.0, r.1 + extra);
      assert PollAll(s, a + b) == (last.0, (mid.1 + r.1) + extra);
      assert (mid.1 + r.1) + extra == mid.1 + (r.1 + extra);
    }
  }

  /**
   * Sampling the lines again while the clock stays at the level last seen
   * changes nothing, whatever the data line reads: only falling edges count,
   * so a loop that polls each level many times decodes as one that polls it once.
   */
  lemma PollRepeat(s: State, input: seq<Lines>, x: Lines)
    requires input != [] && x.clock == input[|input| - 1].clock
    ensures PollAll(s, input + [x]) == PollAll(s, input)
  {
    PollAllSnoc(s, input, x);
    var before := PollAll(s, input);
    assert before.0.frame.(lastClock := x.clock) == before.0.frame;
    assert before.1 + [] == before.1;
  }

  /** One bit clocked out: the high sample is no edge, the low sample is a falling edge. */
  lemma PollBit(s: State, input: seq<Lines>, b: bool)
    ensures var mid := Poll(PollAll(s, input).0, true, b);
            var last := Poll(mid.0, false, b);
            mid.1.None?
            && PollAll(s, input + [Lines(true, b), Lines(false, b)])
               == (last.0, PollAll(s, input).1 + if last.1.Some? then [last.1.value] else [])
  {
    var hi, lo := Lines(true, b), Lines(false, b);
    PollAllSnoc(s, input, hi);
    PollAllSnoc(s, input + [hi], lo);
    assert input + [hi, lo] == input + [hi] + [lo];
    var before := PollAll(s, input);
    var mid := Poll(before.0, true, b);
    assert mid.1.None?;
    assert PollAll(s, input + [hi]) == (mid.0, before.1 + []);
    assert before.1 + [] == before.1;
  }

  /** One more bit short of a full frame extends the bits received and emits nothing. */
  lemma FeedBit(s: State, input: seq<Lines>, done: seq<bool>, b: bool)
    requires Holds(PollAll(s, input).0.frame, done) && |done| + 1 < FrameLength
    ensures var after := PollAll(s, input + [Lines(true, b), Lines(false, b)]);
            after.1 == PollAll(s, input).1
            && after.0.keys == PollAll(s, input).0.keys
            && Holds(after.0.frame, done + [b])
            && !after.0.frame.lastClock
  {
    var before := PollAll(s, input).0;
    PollBit(s, input, b);
    ClockHolds(before.frame, done, true, b);
    var mid := Poll(before, true, b).0;
    ClockHolds(mid.frame, done, false, b);
    assert PollAll(s, input).1 + [] == PollAll(s, input).1;
  }

  /**
   * Fewer than eleven bits complete no frame: they only extend the bits
   * received, and the interpreter state is untouched.
   */
  lemma {:induction false} FeedPartial(s: State, done: seq<bool>, bits: seq<bool>)
    requires Holds(s.frame, done) && |done| + |bits| < FrameLength
    ensures PollAll(s, Waveform(bits)).1 == []
    ensures PollAll(s, Waveform(bits)).0.keys == s.keys
    ensures Holds(PollAll(s, Waveform(bits)).0.frame, done + bits)
    ensures bits != [] ==> !PollAll(s, Waveform(bits)).0.frame.lastClock
  {
    if bits == [] {
      assert done + bits == done;
    } else {
      var init, b := bits[..|bits| - 1], bits[|bits| - 1];
      assert bits == init + [b];
      WaveformSnoc(init, b);
      FeedPartial(s, done, init);
      FeedBit(s, Waveform(init), done + init, b);
      assert done + init + [b] == done + bits;
    }
  }

  /**
   * Eleven bits from a frame boundary complete exactly one frame: its code
   * holds frame bits 1..8 least significant first, its parity is frame bit
   * 9, the check's verdict and the event follow from those alone, and the
   * assembler is empty again.
   */
  lemma FeedFrame(s: State, bits: seq<bool>)
    requires Holds(s.frame, []) && |bits| == FrameLength
    ensures var r := PollAll(s, Waveform(bits));
            |r.1| == 1
            && CodeHolds(r.1[0].code, bits)
            && r.1[0].parityFail == ParityFails(r.1[0].code, bits[9])
            && (r.0.keys, r.1[0].event) == Interpret(s.keys, r.1[0].code)
            && r.0.frame == Cleared(false)
  {
    var init, b := bits[..10], bits[10];
    assert [] + init == init && init + [b] == bits;
    assert bits[..|bits| - 1] == init;
    FeedPartial(s, [], init);
    var before := PollAll(s, Waveform(init)).0;
    PollBit(s, Waveform(init), b);
    ClockHolds(before.frame, init, true, b);
    var mid := Poll(before, true, b).0;
    ClockHolds(mid.frame, init, false, b);
  }

  /** The completed code is the sum, over frame bits 1..8, of bit i times 2^(i-1). */
  lemma FrameCodeValue(s: State, bits: seq<bool>)
    requires Holds(s.frame, []) && |bits| == FrameLength
    ensures |PollAll(s, Waveform(bits)).1| == 1
    ensures PollAll(s, Waveform(bits)).1[0].code as int == LsbValue(bits[1..9])
  {
    FeedFrame(s, bits);
    CodeValue(PollAll(s, Waveform(bits)).1[0].code, bits);
  }

  /**
   * The eleven bits of a device's frame for `c`, from a frame boundary,
   * decode back to `c` with no parity failure, and `c` is interpreted.
   */
  lemma FrameRoundTrip(s: State, c: bv8)
    requires Holds(s.frame, [])
    ensures PollAll(s, Waveform(EncodeFrame(c))) ==
              (State(Cleared(false), Interpret(s.keys, c).0), [Output(c, false, Interpret(s.keys, c).1)])
  {
    var bits := EncodeFrame(c);
    FeedFrame(s, bits);
    var r := PollAll(s, Waveform(bits));
    assert CodeHolds(c, bits);
    CodeDetermined(r.1[0].code, c, bits);
    assert r.1 == [r.1[0]];
    assert r.1[0] == Output(c, false, Interpret(s.keys, c).1);
  }

  /**
   * The same frame with its parity bit inverted yields the same code and the
   * same event, and a parity failure.
   */
  lemma ParityFailureReported(s: State, c: bv8)
    requires Holds(s.frame, [])
    ensures PollAll(s, Waveform(EncodeFrame(c)[9 := !OddParityBit(c)])) ==
              (State(Cleared(false), Interpret(s.keys, c).0), [Output(c, true, Interpret(s.keys, c).1)])
  {
    var bits := EncodeFrame(c)[9 := !OddParityBit(c)];
    FeedFrame(s, bits);
    var r := PollAll(s, Waveform(bits));
    assert CodeHolds(c, bits);
    CodeDetermined(r.1[0].code, c, bits);
    assert r.1 == [r.1[0]];
    assert r.1[0] == Output(c, true, Interpret(s.keys, c).1);
  }

  /** The start bit and the stop bit do not affect what a frame decodes to. */
  lemma StartStopIgnored(s: State, bits: seq<bool>, start: bool, stop: bool)
    requires Holds(s.frame, []) && |bits| == FrameLength
    ensures PollAll(s, Waveform(bits[0 := start][10 := stop])) == PollAll(s, Waveform(bits))
  {
    var other := bits[0 := start][10 := stop];
    FeedFrame(s, bits);
    FeedFrame(s, other);
    var r, r' := PollAll(s, Waveform(bits)), PollAll(s, Waveform(other));
    assert CodeHolds(r'.1[0].code, bits);
    CodeDetermined(r.1[0].code, r'.1[0].code, bits);
    assert r.1 == [r.1[0]] && r'.1 == [r'.1[0]];
  }

  /**
   * From power-on, the frame for Enter (0x5a) gives a newline character and
   * no parity failure; with its parity bit inverted it gives the same
   * character and a parity failure.
   */
  lemma EnterKeyFromPowerOn()
    ensures PollAll(PowerOn, Waveform(EncodeFrame(0x5a))) ==
              (State(Cleared(false), NoKeys), [Output(0x5a, false, Char('\n'))])
    ensures PollAll(PowerOn, Waveform(EncodeFrame(0x5a)[9 := !OddParityBit(0x5a)])) ==
              (State(Cleared(false), NoKeys), [Output(0x5a, true, Char('\n'))])
  {
    FrameRoundTrip(PowerOn, 0x5a);
    ParityFailureReported(PowerOn, 0x5a);
    EnterKey();
  }

  /**
   * The decoder as the polling loop holds it: the frame locals, the modifier
   * bitset and the two prefix flags, updated in place on each iteration.
   */
  class Ps2Decoder {
    var packet: nat
    var bitsReceived: nat
    var code: bv8
    var parity: bool
    var lstClk: bool
    var bitset: bv8
    var extended: bool
    var release: bool
    /** The bits sampled since the last frame completed. */
    ghost var received: seq<bool>

    /** The locals as a value. */
    function Model(): State
      reads this
    {
      State(Assembler(packet, bitsReceived, code, parity, lstClk), Keys(bitset, extended, release))
    }

    /** The frame locals hold exactly the bits received, and no frame is ever left complete. */
    ghost predicate Valid()
      reads this
    {
      Holds(Model().frame, received) && |received| < FrameLength
    }

    constructor ()
      ensures Valid() && Model() == PowerOn && received == []
    {
      packet, bitsReceived, code, parity, lstClk := 0, 0, 0, false, false;
      bitset, extended, release := 0, false, false;
      received := [];
    }

    /**
     * Interpret the completed code in `code`: prefix bytes set their flag;
     * modifier keys update their bit; special and printable keys yield their
     * event; every non-prefix code clears both flags.
     */
    method HandleScancode() returns (event: Event)
      modifies this`bitset, this`extended, this`release
      ensures (Keys(bitset, extended, release), event) == Interpret(old(Keys(bitset, extended, release)), code)
    {
      event := NoEvent;
      var resetExtendRelease := true;
      if code == ExtendedPrefix {
        extended := true;
        resetExtendRelease := false;
      } else if code == ReleasePrefix {
        release := true;
        resetExtendRelease := false;
      } else {
        match ModifierMask(code, extended)
        case Some(mask) =>
          bitset := HandleBitset(bitset, mask, release);
        case None =>
          event := NonModifierEvent();
      }
      if resetExtendRelease {
        extended := false;
        release := false;
      }
    }

    /** The event of a code that is neither a prefix nor a modifier key. */
    method NonModifierEvent() returns (event: Event)
      ensures event == TerminalEvent(Keys(bitset, extended, release), code)
    {
      event := NoEvent;
      if code == EscapeCode {
        event := Escape;
      } else if code == BackspaceCode && !release {
        event := Backspace;
      } else if code == SelfTestCode {
        event := SelfTest;
      } else if !release && !extended {
        event := KeyEvent(bitset, CharFromScancode(code, bitset & AnyShift != 0));
      }
    }

    /** Shift one sampled data bit into the frame locals. */
    method ShiftIn(dat: bool)
      modifies this`packet, this`bitsReceived, this`code, this`parity, this`received
      ensures Model().frame == Sample(old(Model().frame), dat)
      ensures received == old(received) + [dat]
    {
      var d: bv8 := if dat then 1 else 0;
      packet := (packet * 2) % PacketRange;
      packet := packet + d as int;
      if bitsReceived >= 1 && bitsReceived <= 8 {
        code := code | (d << (bitsReceived - 1));
      }
      if bitsReceived == 9 {
        parity := dat;
      }
      bitsReceived := bitsReceived + 1;
      received := received + [dat];
    }

    /**
     * A frame is complete: report the parity check, interpret the code and
     * clear the frame locals for the next frame.
     */
    method FinishFrame() returns (o: Output)
      modifies this`packet, this`bitsReceived, this`code, this`parity, this`received
      modifies this`bitset, this`extended, this`release
      ensures o == Output(old(code), ParityFails(old(code), old(parity)), Interpret(old(Model().keys), old(code)).1)
      ensures Model() == State(Cleared(lstClk), Interpret(old(Model().keys), old(code)).0)
      ensures received == []
    {
      var parityFail := ParityFails(code, parity);
      var event := HandleScancode();
      o := Output(code, parityFail, event);
      packet, parity, bitsReceived, code := 0, false, 0, 0;
      received := [];
    }

    /** One iteration of the polling loop with clock level `clk` and data level `dat`. */
    method Step(clk: bool, dat: bool) returns (out: Option<Output>)
      requires Valid()
      modifies this
      ensures Valid()
      ensures (Model(), out) == Poll(old(Model()), clk, dat)
      ensures received ==
                if !IsFallingEdge(old(lstClk), clk) then old(received)
                else if out.Some? then []
                else old(received) + [dat]
    {
      ghost var before := Model();
      ClockHolds(before.frame, received, clk, dat);
      out := None;
      var newClk := clk;
      if !newClk && lstClk {
        ShiftIn(dat);
        if bitsReceived == FrameLength {
          var o := FinishFrame();
          out := Some(o);
        }
      }
      lstClk := newClk;
      assert Model().frame == Clock(before.frame, clk, dat).0;
    }

    /** Run the polling loop over a finite sequence of line samples. */
    method Run(input: seq<Lines>) returns (outs: seq<Output>)
      requires Valid()
      modifies this
      ensures Valid()
      ensures (Model(), outs) == PollAll(old(Model()), input)
    {
      outs := [];
      var i := 0;
      while i < |input|
        invariant 0 <= i <= |input|
        invariant Valid()
        invariant (Model(), outs) == PollAll(old(Model()), input[..i])
      {
        assert input[..i + 1] == input[..i] + [input[i]];
        PollAllSnoc(old(Model()), input[..i], input[i]);
        ghost var before := Model();
        var out := Step(input[i].clock, input[i].data);
        assert (Model(), out) == Poll(before, input[i].clock, input[i].data);
        if out.Some? {
          outs := outs + [out.value];
        } else {
          assert outs + [] == outs;
        }
        i := i + 1;
      }
      assert input[..|input|] == input;
    }
  }
}
