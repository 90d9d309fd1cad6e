/** The text the decoder writes to its serial console for each completed frame. */
module Console {
  import opened Interpreter
  import opened Decoder

  /** Written, on a line of its own, before the failing frame is interpreted. */
  const ParityFailText: string := "\nPARITY FAIL\n"

  /** Backspace rubs out the last character: back, blank, back. */
  const RubOut: string := ['\U{8}', ' ', '\U{8}']

  /** The console text of one event. */
  function Render(e: Event): (text: string)
    ensures e.NoEvent? <==> text == []
    ensures e.Char? ==> text == [e.c]
    ensures e.IsKey() && !e.Char? ==> |text| == 5 && text[0] == '<' && text[3] == e.c && text[4] == '>'
  {
    match e
    case Char(c) => [c]
    case Ctrl(c) => "<C-" + [c] + ">"
    case Alt(c) => "<M-" + [c] + ">"
    case Meta(c) => "<S-" + [c] + ">"
    case Escape => "[ESC]"
    case Backspace => RubOut
    case SelfTest => "Self-test passed\n"
    case NoEvent => ""
  }

  /** The console text of one completed frame: the parity warning, if any, then the event. */
  function RenderOutput(o: Output): (text: string)
    ensures o.parityFail ==> text == ParityFailText + Render(o.event)
    ensures !o.parityFail ==> text == Render(o.event)
  {
    (if o.parityFail then ParityFailText else "") + Render(o.event)
  }

  /** The console text of a stretch of completed frames, in order. */
  function Transcript(outs: seq<Output>): (text: string)
    ensures outs == [] ==> text == []
  {
    if outs == [] then "" else RenderOutput(outs[0]) + Transcript(outs[1..])
  }

  /** The text of two stretches of frames is the text of the first followed by that of the second. */
  lemma {:induction false} TranscriptAppend(a: seq<Output>, b: seq<Output>)
    ensures Transcript(a + b) == Transcript(a) + Transcript(b)
  {
    if a == [] {
      assert a + b == b;
    } else {
      assert (a + b)[1..] == a[1..] + b;
      TranscriptAppend(a[1..], b);
    }
  }

  /**
   * The console text of polling two stretches of samples in turn is the text
   * of the first stretch followed by the text of the second.
   */
  lemma TranscriptOfPolling(s: State, a: seq<Lines>, b: seq<Lines>)
    ensures Transcript(PollAll(s, a + b).1) ==
              Transcript(PollAll(s, a).1) + Transcript(PollAll(PollAll(s, a).0, b).1)
  {
    PollAllAppend(s, a, b);
    TranscriptAppend(PollAll(s, a).1, PollAll(PollAll(s, a).0, b).1);
  }

  /** Different events are written differently, so the console text determines the event. */
  lemma RenderInjective(e1: Event, e2: Event)
    requires Render(e1) == Render(e2)
    ensures e1 == e2
  {
    var t := Render(e1);
    if e1.IsKey() && !e1.Char? {
      assert t[1] == Render(e2)[1];
    }
    if e1 == Escape || e1 == SelfTest || e1 == Backspace {
      assert t[0] == Render(e2)[0] && |t| == |Render(e2)|;
    }
  }

  /** The console text of a frame determines both its parity verdict and its event. */
  lemma RenderOutputInjective(o1: Output, o2: Output)
    requires RenderOutput(o1) == RenderOutput(o2)
    ensures o1.parityFail == o2.parityFail && o1.event == o2.event
  {
    var t := RenderOutput(o1);
    if o1.parityFail {
      assert Render(o1.event) == t[|ParityFailText|..] == Render(o2.event);
    }
    RenderInjective(o1.event, o2.event);
  }
}
