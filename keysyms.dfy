/**
 * The symbol resolver of xfake: one input character becomes the name of an
 * X11 keysym and a flag saying whether Shift must be held while the key is
 * typed.  The table follows a US keyboard layout and covers the Latin
 * letters, the digits and 32 punctuation characters; everything else is
 * fatal to the run.
 *
 * The X11 library calls that turn a name into a keysym (XStringToKeysym)
 * and a keysym into a physical key code (XKeysymToKeycode) are given as
 * the two functions of a `Keymap` value.
 */
module Keysyms {

  datatype Option<+T> = None | Some(value: T)

  /** An X11 keysym; 0 is NoSymbol, what XStringToKeysym returns for an unknown name. */
  type KeySym = nat

  const NoSymbol: KeySym := 0

  /** An X11 key code: an unsigned 8-bit value; 0 means "no key carries this keysym". */
  newtype KeyCode = k: int | 0 <= k < 256

  /** The display's view of the keyboard: name -> keysym, keysym -> key code. */
  datatype Keymap = Keymap(keysym: string -> KeySym, keycode: KeySym -> KeyCode)

  // Character classes of the C library in the "C" locale.
  predicate IsUpper(c: char) { 'A' <= c <= 'Z' }
  predicate IsLower(c: char) { 'a' <= c <= 'z' }
  predicate IsDigit(c: char) { '0' <= c <= '9' }
  predicate IsAlnum(c: char) { IsUpper(c) || IsLower(c) || IsDigit(c) }

  /**
   * The keysym name for `c` and whether Shift is needed, or None when the
   * character has no entry (the source then aborts the run).  A letter or a
   * digit names itself; an upper-case letter needs Shift.
   */
  function Resolve(c: char): (r: Option<(string, bool)>)
    ensures r.Some? <==> IsPrintable(c)
    ensures r.Some? <==> IsAlnum(c) || c in UnshiftedSymbols || c in ShiftedSymbols
    ensures r.Some? ==> (r.value.1 <==> IsUpper(c) || (c in ShiftedSymbols && c != '<'))
  {
    if IsAlnum(c) then Some(([c], IsUpper(c)))
    else match c
      case '`' => Some(("grave", false))
      case '~' => Some(("asciitilde", true))
      case '!' => Some(("exclam", true))
      case '@' => Some(("at", true))
      case '#' => Some(("numbersign", true))
      case '$' => Some(("dollar", true))
      case '%' => Some(("percent", true))
      case '^' => Some(("asciicircum", true))
      case '&' => Some(("ampersand", true))
      case '*' => Some(("asterisk", true))
      case '(' => Some(("parenleft", true))
      case ')' => Some(("parenright", true))
      case '-' => Some(("minus", false))
      case '_' => Some(("underscore", true))
      case '=' => Some(("equal", false))
      case '+' => Some(("plus", true))
      case '[' => Some(("bracketleft", false))
      case '{' => Some(("braceleft", true))
      case ']' => Some(("bracketright", false))
      case '}' => Some(("braceright", true))
      case '\\' => Some(("backslash", false))
      case '|' => Some(("bar", true))
      case ';' => Some(("semicolon", false))
      case ':' => Some(("colon", true))
      case '\'' => Some(("apostrophe", false))
      case '"' => Some(("quotedbl", true))
      case ',' => Some(("comma", false))
      case '<' => Some(("less", false)) // the source leaves Shift off here
      case '.' => Some(("period", false))
      case '>' => Some(("greater", true))
      case '/' => Some(("slash", false))
      case '?' => Some(("question", true))
      case _ => None
  }

  /**
   * lookup_keycode: resolves `c` and asks the keymap for the key code of the
   * resulting name.  `shift` is the caller's flag on entry; the flag on exit
   * is only ever raised, never cleared.  Neither the keysym nor the key code
   * is checked, so an unknown name yields whatever code the keymap gives
   * NoSymbol.
   */
  function LookupKeycode(km: Keymap, c: char, shift: bool): (r: Option<(KeyCode, bool)>)
    ensures r.Some? <==> Resolve(c).Some?
    ensures r.Some? ==> r.value.0 == km.keycode(km.keysym(Resolve(c).value.0))
    ensures r.Some? ==> (r.value.1 <==> shift || Resolve(c).value.1)
    ensures r.Some? && shift ==> r.value.1
  {
    match Resolve(c)
    case None => None
    case Some((name, needsShift)) => Some((km.keycode(km.keysym(name)), shift || needsShift))
  }

  // ---------------------------------------------------------------------
  // An independent description of the table: the US keyboard layout.

  /** Symbols typed without Shift on a US keyboard. */
  const UnshiftedSymbols: set<char> := {'`', '-', '=', '[', ']', '\\', ';', '\'', ',', '.', '/'}

  /** Symbols typed with Shift on a US keyboard. */
  const ShiftedSymbols: set<char> :=
    {'~', '!', '@', '#', '$', '%', '^', '&', '*', '(', ')', '_', '+',
     '{', '}', '|', ':', '"', '<', '>', '?'}

  predicate IsPrintable(c: char) { '!' <= c <= '~' }

  /** Space, control characters and everything past ASCII are not in the table: typing them is fatal. */
  lemma SpaceAndControlAreFatal(c: char)
    requires c <= ' ' || c > '~'
    ensures Resolve(c) == None
  {
  }

  /** An upper-case letter names its own keysym and needs Shift. */
  lemma UpperCaseNeedsShift(c: char)
    requires IsUpper(c)
    ensures Resolve(c) == Some(([c], true))
  {
  }

  /** A lower-case letter or a digit names its own keysym and needs no Shift. */
  lemma LowerCaseAndDigitsUnshifted(c: char)
    requires IsLower(c) || IsDigit(c)
    ensures Resolve(c) == Some(([c], false))
  {
  }

  /** A few entries of the table, including the `<` quirk beside `>`. */
  lemma TableSamples()
    ensures Resolve('!') == Some(("exclam", true))
    ensures Resolve('@') == Some(("at", true))
    ensures Resolve('(') == Some(("parenleft", true))
    ensures Resolve('-') == Some(("minus", false))
    ensures Resolve('<') == Some(("less", false))
    ensures Resolve('>') == Some(("greater", true))
  {
  }

  // ---------------------------------------------------------------------
  // Distinct characters resolve to distinct keysym names.

  /** Reads a keysym name back to the character it was resolved from. */
  function CharOfName(name: string): (r: Option<char>)
  {
    if |name| == 1 && IsAlnum(name[0]) then Some(name[0])
    else match name
      case "grave" => Some('`')
      case "asciitilde" => Some('~')
      case "exclam" => Some('!')
      case "at" => Some('@')
      case "numbersign" => Some('#')
      case "dollar" => Some('$')
      case "percent" => Some('%')
      case "asciicircum" => Some('^')
      case "ampersand" => Some('&')
      case "asterisk" => Some('*')
      case "parenleft" => Some('(')
      case "parenright" => Some(')')
      case "minus" => Some('-')
      case "underscore" => Some('_')
      case "equal" => Some('=')
      case "plus" => Some('+')
      case "bracketleft" => Some('[')
      case "braceleft" => Some('{')
      case "bracketright" => Some(']')
      case "braceright" => Some('}')
      case "backslash" => Some('\\')
      case "bar" => Some('|')
      case "semicolon" => Some(';')
      case "colon" => Some(':')
      case "apostrophe" => Some('\'')
      case "quotedbl" => Some('"')
      case "comma" => Some(',')
      case "less" => Some('<')
      case "period" => Some('.')
      case "greater" => Some('>')
      case "slash" => Some('/')
      case "question" => Some('?')
      case _ => None
  }

  /** Round trip: the name a character resolves to reads back as that character. */
  lemma NameRoundTrip(c: char)
    requires Resolve(c).Some?
    ensures CharOfName(Resolve(c).value.0) == Some(c)
  {
    if IsAlnum(c) {
      assert Resolve(c).value.0 == [c];
    }
  }

  /** No two characters share a keysym name. */
  lemma ResolveInjective(c1: char, c2: char)
    requires Resolve(c1).Some? && Resolve(c2).Some?
    requires Resolve(c1).value.0 == Resolve(c2).value.0
    ensures c1 == c2
  {
    NameRoundTrip(c1);
    NameRoundTrip(c2);
  }
}
