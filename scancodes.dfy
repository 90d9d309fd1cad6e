/**
 * The scan-code-to-character lookup of the decoder (scan code set 2, UK
 * layout for the shifted symbol row). It is a pure, total function: a code
 * with no entry yields the placeholder '?'.
 */
module Scancodes {
  import opened Wrappers

  /** The character returned for a code that has no entry. */
  const Unmapped: char := '?'

  /** Codes whose shifted and unshifted characters differ (digits and punctuation). */
  const SymbolRow: set<bv8> :=
    {0x16, 0x1e, 0x26, 0x25, 0x2e, 0x36, 0x3d, 0x3e, 0x46, 0x45,
     0x41, 0x49, 0x4a, 0x4c, 0x4e, 0x52, 0x54, 0x5b, 0x55, 0x5d}

  /** Codes that give the same character whatever the shift state: space, enter, keypad, tab. */
  const ShiftFree: set<bv8> :=
    {0x29, 0x5a, 0x69, 0x6b, 0x6c, 0x70, 0x71, 0x72, 0x73, 0x74,
     0x75, 0x79, 0x7a, 0x7b, 0x7c, 0x7d, 0x0d}

  predicate IsLower(c: char) { 'a' <= c <= 'z' }

  /** ASCII upper case of a lower-case letter. */
  function Upper(c: char): (u: char)
    requires IsLower(c)
    ensures 'A' <= u <= 'Z'
  {
    (c as int - 'a' as int + 'A' as int) as char
  }

  /** The letter table: the lower-case letter a key produces, if it is a letter key. */
  function LetterOf(scancode: bv8): (r: Option<char>)
    ensures r.Some? ==> IsLower(r.value)
  {
    match scancode
    case 0x1c => Some('a')
    case 0x32 => Some('b')
    case 0x21 => Some('c')
    case 0x23 => Some('d')
    case 0x24 => Some('e')
    case 0x2b => Some('f')
    case 0x34 => Some('g')
    case 0x33 => Some('h')
    case 0x43 => Some('i')
    case 0x3b => Some('j')
    case 0x42 => Some('k')
    case 0x4b => Some('l')
    case 0x3a => Some('m')
    case 0x31 => Some('n')
    case 0x44 => Some('o')
    case 0x4d => Some('p')
    case 0x15 => Some('q')
    case 0x2d => Some('r')
    case 0x1b => Some('s')
    case 0x2c => Some('t')
    case 0x3c => Some('u')
    case 0x2a => Some('v')
    case 0x1d => Some('w')
    case 0x22 => Some('x')
    case 0x35 => Some('y')
    case 0x1a => Some('z')
    case _ => None
  }

  /** The key of each letter: the inverse of the letter table. */
  function LetterKey(c: char): (k: bv8)
    requires IsLower(c)
    ensures LetterOf(k) == Some(c)
  {
    match c
    case 'a' => 0x1c
    case 'b' => 0x32
    case 'c' => 0x21
    case 'd' => 0x23
    case 'e' => 0x24
    case 'f' => 0x2b
    case 'g' => 0x34
    case 'h' => 0x33
    case 'i' => 0x43
    case 'j' => 0x3b
    case 'k' => 0x42
    case 'l' => 0x4b
    case 'm' => 0x3a
    case 'n' => 0x31
    case 'o' => 0x44
    case 'p' => 0x4d
    case 'q' => 0x15
    case 'r' => 0x2d
    case 's' => 0x1b
    case 't' => 0x2c
    case 'u' => 0x3c
    case 'v' => 0x2a
    case 'w' => 0x1d
    case 'x' => 0x22
    case 'y' => 0x35
    case 'z' => 0x1a
  }

  /** The table of the remaining keys; `shift` selects the symbol-row alternates. */
  function SymbolOf(scancode: bv8, shift: bool): (r: char)
    ensures scancode !in SymbolRow && scancode !in ShiftFree ==> r == Unmapped
    ensures scancode in ShiftFree ==> r != Unmapped && !IsLower(r)
    ensures scancode in SymbolRow && !shift ==> r != Unmapped && !IsLower(r)
  {
    match scancode
    case 0x16 => if shift then '!' else '1'
    case 0x1e => if shift then '"' else '2'
    case 0x26 => if shift then '£' else '3'
    case 0x25 => if shift then '$' else '4'
    case 0x2e => if shift then '%' else '5'
    case 0x36 => if shift then '^' else '6'
    case 0x3d => if shift then '&' else '7'
    case 0x3e => if shift then '*' else '8'
    case 0x46 => if shift then '(' else '9'
    case 0x45 => if shift then ')' else '0'
    case 0x29 => ' '
    case 0x41 => if shift then '<' else ','
    case 0x49 => if shift then '>' else '.'
    case 0x4a => if shift then '?' else '/'
    case 0x4c => if shift then ':' else ';'
    case 0x4e => if shift then '_' else '-'
    case 0x52 => if shift then '@' else '\''
    case 0x54 => if shift then '{' else '['
    case 0x5b => if shift then '}' else ']'
    case 0x55 => if shift then '+' else '='
    case 0x5a => '\n'
    case 0x5d => if shift then '#' else '\\'
    // keypad
    case 0x69 => '1'
    case 0x6b => '4'
    case 0x6c => '7'
    case 0x70 => '0'
    case 0x71 => '.'
    case 0x72 => '2'
    case 0x73 => '5'
    case 0x74 => '6'
    case 0x75 => '8'
    case 0x79 => '+'
    case 0x7a => '3'
    case 0x7b => '-'
    case 0x7c => '*'
    case 0x7d => '9'
    case 0x0d => '\t'
    case _ => Unmapped
  }

  /**
   * The character of a key: letters from the letter table, case-shifted by
   * subtracting the ASCII case distance when `shift` holds; everything else
   * from the symbol table.
   */
  function CharFromScancode(scancode: bv8, shift: bool): (r: char)
    ensures LetterOf(scancode).Some? ==>
              r == if shift then Upper(LetterOf(scancode).value) else LetterOf(scancode).value
    ensures LetterOf(scancode).None? && scancode !in SymbolRow && scancode !in ShiftFree ==> r == Unmapped
    ensures scancode in ShiftFree ==> r != Unmapped && !IsLower(r)
  {
    match LetterOf(scancode)
    case Some(c) => (c as int - ('a' as int - 'A' as int) * (if shift then 1 else 0)) as char
    case None => SymbolOf(scancode, shift)
  }

  /** Every letter key gives its letter unshifted and the upper-case letter shifted. */
  lemma LetterKeys(c: char)
    requires IsLower(c)
    ensures CharFromScancode(LetterKey(c), false) == c
    ensures CharFromScancode(LetterKey(c), true) == Upper(c)
  {
  }

  /** Distinct letter keys give distinct letters: the letter table is one-to-one. */
  lemma LetterKeyInverse(scancode: bv8)
    requires LetterOf(scancode).Some?
    ensures LetterKey(LetterOf(scancode).value) == scancode
  {
  }

  /** Space, enter, the keypad and tab ignore the shift state. */
  lemma ShiftFreeKeys(scancode: bv8)
    requires scancode in ShiftFree
    ensures CharFromScancode(scancode, true) == CharFromScancode(scancode, false)
  {
  }

  /** The letters and the symbol row have a distinct shifted alternate. */
  lemma ShiftedKeys(scancode: bv8)
    requires LetterOf(scancode).Some? || scancode in SymbolRow
    ensures CharFromScancode(scancode, true) != CharFromScancode(scancode, false)
  {
  }
}
