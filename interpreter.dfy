/**
 * The scan-code interpreter. It keeps, across frames, the bitset of held
 * modifier keys and the two pending-prefix flags, and classifies each
 * completed scan code as a prefix byte, a modifier key, a special key or a
 * printable key.
 */
module Interpreter {
  import opened Wrappers
  import opened Scancodes

  /** The prefix of the extended key set. */
  const ExtendedPrefix: bv8 := 0xe0
  /** The prefix of a key release (break code). */
  const ReleasePrefix: bv8 := 0xf0
  const EscapeCode: bv8 := 0x76
  const BackspaceCode: bv8 := 0x66
  /** Sent by the keyboard when its power-on self test passes. */
  const SelfTestCode: bv8 := 0xaa

  /** Modifier bits: left-hand keys in the high nibble, right-hand keys in the low nibble. */
  const LeftShift: bv8 := 0x10
  const LeftCtrl: bv8 := 0x20
  const LeftAlt: bv8 := 0x40
  const LeftMod: bv8 := 0x80
  const RightShift: bv8 := 0x01
  const RightCtrl: bv8 := 0x02
  const RightAlt: bv8 := 0x04
  const RightMod: bv8 := 0x08

  const AnyShift: bv8 := LeftShift | RightShift
  const AnyCtrl: bv8 := LeftCtrl | RightCtrl
  const AnyAlt: bv8 := LeftAlt | RightAlt
  const AnyMod: bv8 := LeftMod | RightMod

  /** The scan codes of the modifier keys (left and right shift, ctrl, alt, left and right mod). */
  const ModifierCodes: set<bv8> := {0x12, 0x59, 0x14, 0x11, 0x27, 0x1f}

  /** The interpreter state: held modifiers and the pending-prefix flags. */
  datatype Keys = Keys(bitset: bv8, extended: bool, release: bool)

  /** Nothing held, nothing pending: the power-on state. */
  const NoKeys: Keys := Keys(0, false, false)

  /** What one completed scan code produces. */
  datatype Event =
    | Char(c: char)
    | Ctrl(c: char)
    | Alt(c: char)
    | Meta(c: char)
    | Escape
    | Backspace
    | SelfTest
    | NoEvent
  {
    /** A printable key, plain or qualified by one modifier. */
    predicate IsKey()
    {
      Char? || Ctrl? || Alt? || Meta?
    }
  }

  predicate IsPrefix(code: bv8)
  {
    code == ExtendedPrefix || code == ReleasePrefix
  }

  /** Codes that take the printable-key path: no prefix, modifier or special key. */
  predicate IsPrintable(code: bv8)
  {
    !IsPrefix(code) && code !in ModifierCodes
    && code != EscapeCode && code != BackspaceCode && code != SelfTestCode
  }

  /** Exactly one bit is set. */
  predicate IsSingleBit(m: bv8)
  {
    m != 0 && m & (m - 1) == 0
  }

  /**
   * The modifier bit a code controls, if it is a modifier key. Ctrl and alt
   * are told apart by the extended prefix, which selects the right-hand key;
   * the other modifier codes ignore it.
   */
  function ModifierMask(code: bv8, extended: bool): (r: Option<bv8>)
    ensures r.Some? <==> code in ModifierCodes
    ensures r.Some? ==> IsSingleBit(r.value)
    ensures r.Some? && (code == 0x14 || code == 0x11) ==> (r.value & 0x0f != 0 <==> extended)
    ensures r.Some? && code != 0x14 && code != 0x11 ==> (r.value & 0x0f != 0 <==> code == 0x59 || code == 0x27)
    // which modifier each code controls
    ensures r.Some? ==> (r.value & AnyShift != 0 <==> code == 0x12 || code == 0x59)
    ensures r.Some? ==> (r.value & AnyCtrl != 0 <==> code == 0x14)
    ensures r.Some? ==> (r.value & AnyAlt != 0 <==> code == 0x11)
    ensures r.Some? ==> (r.value & AnyMod != 0 <==> code == 0x1f || code == 0x27)
  {
    match code
    case 0x12 => Some(LeftShift)
    case 0x59 => Some(RightShift)
    case 0x14 => Some(if extended then RightCtrl else LeftCtrl)
    case 0x11 => Some(if extended then RightAlt else LeftAlt)
    case 0x27 => Some(RightMod)
    case 0x1f => Some(LeftMod)
    case _ => None
  }

  /**
   * A modifier key's effect on the bitset: a press sets its bit, a release
   * clears it, and no other bit changes.
   */
  function HandleBitset(bitset: bv8, mask: bv8, release: bool): (b: bv8)
    requires IsSingleBit(mask)
    ensures b & !mask == bitset & !mask
    ensures b & mask != 0 <==> !release
  {
    if release then bitset & !mask else bitset | mask
  }

  /**
   * A printable key's event: the first held modifier group in the order
   * ctrl, alt, mod qualifies the character; with none held it is plain.
   */
  function KeyEvent(bitset: bv8, c: char): (e: Event)
    ensures e.IsKey() && e.c == c
    ensures e.Ctrl? <==> bitset & AnyCtrl != 0
    ensures e.Alt? <==> bitset & AnyCtrl == 0 && bitset & AnyAlt != 0
    ensures e.Meta? <==> bitset & AnyCtrl == 0 && bitset & AnyAlt == 0 && bitset & AnyMod != 0
    ensures e.Char? <==> bitset & (AnyCtrl | AnyAlt | AnyMod) == 0
  {
    if bitset & AnyCtrl != 0 then Ctrl(c)
    else if bitset & AnyAlt != 0 then Alt(c)
    else if bitset & AnyMod != 0 then Meta(c)
    else Char(c)
  }

  /**
   * The event of a code that is neither a prefix nor a modifier. Escape and
   * the self-test code are reported whatever the flags; backspace only when
   * no release is pending; printable keys only with no prefix pending.
   */
  function TerminalEvent(k: Keys, code: bv8): (e: Event)
    ensures e == Escape <==> code == EscapeCode
    ensures e == Backspace <==> code == BackspaceCode && !k.release
    ensures e == SelfTest <==> code == SelfTestCode
    ensures e.IsKey() <==> !k.release && !k.extended
                           && code != EscapeCode && code != BackspaceCode && code != SelfTestCode
    ensures e.IsKey() ==> e == KeyEvent(k.bitset, CharFromScancode(code, k.bitset & AnyShift != 0))
  {
    if code == EscapeCode then Escape
    else if code == BackspaceCode && !k.release then Backspace
    else if code == SelfTestCode then SelfTest
    else if !k.release && !k.extended then KeyEvent(k.bitset, CharFromScancode(code, k.bitset & AnyShift != 0))
    else NoEvent
  }

  /** Interpret one completed scan code. */
  function Interpret(k: Keys, code: bv8): (r: (Keys, Event))
    // prefix bytes set their flag, keep the other one, and produce nothing
    ensures code == ExtendedPrefix ==> r == (k.(extended := true), NoEvent)
    ensures code == ReleasePrefix ==> r == (k.(release := true), NoEvent)
    // every other code ends the sequence, with or without an event
    ensures !IsPrefix(code) ==> !r.0.extended && !r.0.release
    // a modifier key sets its bit on press, clears it on release, and touches no other bit
    ensures ModifierMask(code, k.extended).Some? ==>
              r == (Keys(HandleBitset(k.bitset, ModifierMask(code, k.extended).value, k.release), false, false), NoEvent)
    ensures ModifierMask(code, k.extended).None? ==> r.0.bitset == k.bitset
  {
    if code == ExtendedPrefix then
      (k.(extended := true), NoEvent)
    else if code == ReleasePrefix then
      (k.(release := true), NoEvent)
    else
      match ModifierMask(code, k.extended)
      case Some(mask) =>
        (Keys(HandleBitset(k.bitset, mask, k.release), false, false), NoEvent)
      case None =>
        (Keys(k.bitset, false, false), TerminalEvent(k, code))
  }

  /**
   * The events of `Interpret`: escape and the self-test code whatever the
   * flags, backspace unless a release is pending, and a printable key only
   * with no prefix pending; its character is looked up with the any-shift
   * flag and qualified by the held modifiers.
   */
  lemma InterpretEvents(k: Keys, code: bv8)
    ensures Interpret(k, code).1 == Escape <==> code == EscapeCode
    ensures Interpret(k, code).1 == Backspace <==> code == BackspaceCode && !k.release
    ensures Interpret(k, code).1 == SelfTest <==> code == SelfTestCode
    ensures Interpret(k, code).1.IsKey() <==> !k.release && !k.extended && IsPrintable(code)
    ensures Interpret(k, code).1.IsKey() ==>
              Interpret(k, code).1 == KeyEvent(k.bitset, CharFromScancode(code, k.bitset & AnyShift != 0))
  {
  }

  /** Interpret a sequence of completed scan codes, collecting every event. */
  function InterpretAll(k: Keys, codes: seq<bv8>): (r: (Keys, seq<Event>))
    ensures |r.1| == |codes|
    decreases |codes|
  {
    if codes == [] then (k, [])
    else
      var first := Interpret(k, codes[0]);
      var rest := InterpretAll(first.0, codes[1..]);
      (rest.0, [first.1] + rest.1)
  }

  /** Only ctrl (0x14) and alt (0x11) depend on the extended prefix. */
  lemma PrefixIndependentModifiers(code: bv8)
    requires code != 0x14 && code != 0x11
    ensures ModifierMask(code, true) == ModifierMask(code, false)
  {
  }

  /** Each modifier key owns its bit: no two keys share one. */
  lemma MasksDistinct(c1: bv8, e1: bool, c2: bv8, e2: bool)
    requires ModifierMask(c1, e1).Some? && ModifierMask(c1, e1) == ModifierMask(c2, e2)
    ensures c1 == c2
    ensures c1 == 0x14 || c1 == 0x11 ==> e1 == e2
  {
  }

  /** Interpreting a code and then the rest is interpreting them all. */
  lemma InterpretCons(k: Keys, code: bv8, rest: seq<bv8>)
    ensures InterpretAll(k, [code] + rest) ==
              (InterpretAll(Interpret(k, code).0, rest).0,
               [Interpret(k, code).1] + InterpretAll(Interpret(k, code).0, rest).1)
  {
    assert ([code] + rest)[1..] == rest;
  }

  /**
   * Pressing and releasing left ctrl (0x14, then 0xf0 0x14) produces no
   * event and leaves its bit clear, the other bits as they were and no
   * prefix pending.
   */
  lemma LeftCtrlPressRelease(k: Keys)
    requires !k.extended && !k.release
    ensures InterpretAll(k, [0x14, ReleasePrefix, 0x14]) ==
              (Keys(k.bitset & !LeftCtrl, false, false), [NoEvent, NoEvent, NoEvent])
  {
    var held := Keys(k.bitset | LeftCtrl, false, false);
    var done := Keys(k.bitset & !LeftCtrl, false, false);
    var c1: seq<bv8>, c2: seq<bv8>, c3: seq<bv8> := [0x14], [ReleasePrefix, 0x14], [0x14, ReleasePrefix, 0x14];
    var e1: seq<Event>, e2: seq<Event>, e3: seq<Event> := [NoEvent], [NoEvent, NoEvent], [NoEvent, NoEvent, NoEvent];
    assert c1 == [0x14] + [] && c2 == [ReleasePrefix] + c1 && c3 == [0x14] + c2;
    assert e1 == [NoEvent] + [] && e2 == [NoEvent] + e1 && e3 == [NoEvent] + e2;
    InterpretCons(held.(release := true), 0x14, []);
    InterpretCons(held, ReleasePrefix, c1);
    InterpretCons(k, 0x14, c2);
  }

  /**
   * Pressing and releasing right ctrl (0xe0 0x14, then 0xe0 0xf0 0x14) does
   * the same for the right-hand ctrl bit.
   */
  lemma RightCtrlPressRelease(k: Keys)
    requires !k.extended && !k.release
    ensures InterpretAll(k, [ExtendedPrefix, 0x14, ExtendedPrefix, ReleasePrefix, 0x14]) ==
              (Keys(k.bitset & !RightCtrl, false, false), [NoEvent, NoEvent, NoEvent, NoEvent, NoEvent])
  {
    var held := k.bitset | RightCtrl;
    var c1: seq<bv8> := [0x14];
    var c2: seq<bv8> := [ReleasePrefix] + c1;
    var c3: seq<bv8> := [ExtendedPrefix] + c2;
    var c4: seq<bv8> := [0x14] + c3;
    var c5: seq<bv8> := [ExtendedPrefix] + c4;
    assert c1 == [0x14] + [];
    assert c5 == [ExtendedPrefix, 0x14, ExtendedPrefix, ReleasePrefix, 0x14];
    var e1: seq<Event> := [NoEvent];
    var e2, e3, e4, e5 := [NoEvent] + e1, [NoEvent] + [NoEvent] + e1, [NoEvent] + [NoEvent] + [NoEvent] + e1,
      [NoEvent] + [NoEvent] + [NoEvent] + [NoEvent] + e1;
    assert e1 == [NoEvent] + [] && e3 == [NoEvent] + e2 && e4 == [NoEvent] + e3 && e5 == [NoEvent] + e4;
    assert e5 == [NoEvent, NoEvent, NoEvent, NoEvent, NoEvent];
    InterpretCons(Keys(held, true, true), 0x14, []);
    InterpretCons(Keys(held, true, false), ReleasePrefix, c1);
    InterpretCons(Keys(held, false, false), ExtendedPrefix, c2);
    InterpretCons(k.(extended := true), 0x14, c3);
    InterpretCons(k, ExtendedPrefix, c4);
  }

  /**
   * The keypad 8 key (0x75) types '8' on its own but produces nothing after
   * the extended prefix (where it is the cursor-up key); either way no prefix
   * is pending afterwards.
   */
  lemma ExtendedKeyDistinct()
    ensures InterpretAll(NoKeys, [0x75]) == (NoKeys, [Char('8')])
    ensures InterpretAll(NoKeys, [ExtendedPrefix, 0x75]) == (NoKeys, [NoEvent, NoEvent])
  {
    var c1: seq<bv8>, c2: seq<bv8> := [0x75], [ExtendedPrefix, 0x75];
    assert c1 == [0x75] + [] && c2 == [ExtendedPrefix] + c1;
    var e: seq<Event>, e1: seq<Event> := [Char('8')], [NoEvent];
    assert e == [Char('8')] + [] && e1 == [NoEvent] + [] && [NoEvent, NoEvent] == [NoEvent] + e1;
    InterpretCons(NoKeys, 0x75, []);
    InterpretCons(NoKeys.(extended := true), 0x75, []);
    InterpretCons(NoKeys, ExtendedPrefix, c1);
  }

  /** Scan code 0x1c is 'a', and 'A' with left shift held. */
  lemma LetterAShifted()
    ensures Interpret(NoKeys, 0x1c).1 == Char('a')
    ensures Interpret(NoKeys.(bitset := LeftShift), 0x1c).1 == Char('A')
  {
  }

  /** Enter with nothing held and no prefix pending prints a newline and leaves the state alone. */
  lemma EnterKey()
    ensures Interpret(NoKeys, 0x5a) == (NoKeys, Char('\n'))
  {
    assert ModifierMask(0x5a, false).None?;
    assert CharFromScancode(0x5a, false) == '\n';
    assert TerminalEvent(NoKeys, 0x5a) == Char('\n');
  }
}
