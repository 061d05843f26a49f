# xfake in Dafny

xfake types a line of text into a running X session. It reads characters from
standard input. For each one it presses and releases the matching key through
the XTEST extension, and it holds Shift around the key when the character
needs it. It flushes the display's queue after every character and stops at
the first newline or at the end of input.

The model has three modules:

- `Keysyms` (`keysyms.dfy`) is the symbol resolver, `lookup_keycode`. It is a
  pure function from a character to an X11 keysym name and a needs-Shift flag.
  The X11 lookups from a name to a keysym and from a keysym to a key code are
  the two functions of a `Keymap` value. A key code is an unsigned 8-bit value
  (`KeyCode`). A keysym is a natural number, and 0 is `NoSymbol`.
- `Injection` (`injection.dfy`) is `main`. The program is observed as the
  trace of calls it makes on the display: `Down(code)` and `Up(code)` for
  `XTestFakeKeyEvent`, `Flush` for `XFlush`, and `Close` for
  `XCloseDisplay`. The functions `Typed` (the loop) and `Session` (the whole
  program) specify that trace. The methods `TypeLine` (the `for` loop, with
  its invariant) and `RunSession` (start-up, loop, close) are proved to
  compute it.
- `SessionProperties` (`properties.dfy`) holds the lemmas about `Typed` and
  `Session`. They cover newline termination, when a run ends normally, one
  flush per character, the per-character decomposition, what a fatal
  character leaves behind, that no key is left held, and that the display is
  closed last. They also cover the sample runs `"Hi!\n"`, `""`, `"#\n"` and
  `"a\tb\n"`.

Resolution is stated against an independent description of the table. A
character resolves exactly when it is printable ASCII other than space
(`'!'`..`'~'`). Equivalently, it resolves when it is a letter, a digit, or a
symbol of the US keyboard layout. Shift is needed exactly for upper-case
letters and for the symbols on the upper half of a US key, except `<`. Space,
tab, other control characters and every non-ASCII character are fatal.

Two facts about the C code shape the model:

- The code has no "no physical mapping" error. The key code from
  `XKeysymToKeycode` is never checked (xfake.c:120, xfake.c:140), so 0 is
  typed like any other code. The keysym of a table name is not checked
  either.
- A failure cannot leave Shift held. Resolution (xfake.c:148) finishes before
  the first event of the character (xfake.c:152). `SessionNoStuckKeys` proves
  that no run leaves a key held.

## Model

| member | source | states |
|---|---|---|
| `Keysyms.Resolve` | xfake.c:20-118 | A character resolves exactly when it is printable ASCII other than space, or equivalently when it is a letter, a digit or a US-layout symbol. The Shift flag is set exactly for upper-case letters and for shifted US symbols other than `<`. |
| `Keysyms.LookupKeycode` | xfake.c:20-121 | A key code is returned exactly when the character resolves, and it is the keymap's code for the resolved name, unchecked. The caller's Shift flag is only ever raised: it ends up as the caller's flag or the character's need for Shift. |
| `Keysyms.UpperCaseNeedsShift` | xfake.c:24-30 | An upper-case letter names its own keysym, with Shift. |
| `Keysyms.LowerCaseAndDigitsUnshifted` | xfake.c:27-30 | A lower-case letter or a digit names its own keysym, without Shift. |
| `Keysyms.TableSamples` | xfake.c:31-115 | Sample entries: `!` is exclam with Shift, `@` is at with Shift, `(` is parenleft with Shift, `-` is minus without Shift, `<` is less without Shift, and `>` is greater with Shift. |
| `Keysyms.SpaceAndControlAreFatal` | xfake.c:116-117 | Space, control characters and non-ASCII characters have no entry. |
| `Keysyms.NameRoundTrip` | xfake.c:31-115 | The keysym name of a resolved character reads back as that character. |
| `Keysyms.ResolveInjective` | xfake.c:31-115 | Two characters never share a keysym name. |
| `Injection.ExitStatus` | xfake.c:11-16 | The exit status is 0 exactly for a normal end and -1 for every fatal one. |
| `Injection.Keystroke` | xfake.c:152-165 | The events of one character: five with Shift, three without, and the last one is the flush. |
| `Injection.KeystrokeShape` | xfake.c:152-165 | The events of one character leave no key held. They end with their one flush and contain no close. The key-down is immediately followed by the key-up of the same code. When Shift is needed, Shift-down comes first and Shift-up just before the flush. When it is not, the events are only the key pair and the flush. |
| `Injection.Line` | xfake.c:142-146 | The characters the loop reads: a prefix of the input with no newline, followed in the input by a newline or by the end of input. |
| `Injection.Typed` | xfake.c:142-168 | The loop never closes the display itself, and it never fails for lack of a Shift keysym. |
| `Injection.TypedStep` | xfake.c:148-165 | Defining equation of `Typed`: a resolvable character contributes its keystroke, and then the loop goes on with the next character. |
| `Injection.TypedStop` | xfake.c:142-146 | Defining equation of `Typed`: at a newline or at the end of input, the loop stops without events and with a normal outcome. |
| `Injection.TypedFail` | xfake.c:116-117 | Defining equation of `Typed`: a character without an entry stops the loop without events for it and with a fatal outcome naming it. |
| `Injection.Session` | xfake.c:137-171 | The whole program: its last call always closes the display, and it fails for lack of a Shift keysym exactly when `Shift_L` has none. |
| `Injection.TypeLine` | xfake.c:142-168 | The loop, with a fresh Shift flag for each character, emits exactly the events and outcome of `Typed`. |
| `Injection.RunSession` | xfake.c:123-172 | The program emits exactly the trace of `Session`. With no Shift keysym it only closes the display. Otherwise it runs the loop and then closes the display. |
| `SessionProperties.TypedStopsAtNewline` | xfake.c:142-146 | The run depends only on the characters before the first newline. |
| `SessionProperties.TypedOkIff` | xfake.c:142-152 | The loop ends normally exactly when every character of the line resolves. |
| `SessionProperties.TypedFlushes` | xfake.c:142-168 | A normal run has one flush per character of the line. In a fatal run, the number of flushes is the position of the failing character, every earlier character resolves, and the outcome names the failing character. |
| `SessionProperties.TypedConcat` | xfake.c:142-168 | A newline-free, resolvable stretch followed by more input yields the stretch's events and then those of the rest. Shift does not carry over from one character to the next. |
| `SessionProperties.OneCharacter` | xfake.c:143-165 | A single resolvable character yields exactly its keystroke, with the keymap's code for its name. |
| `SessionProperties.FatalKeepsEarlierEvents` | xfake.c:116-117 | An unresolvable character in the line aborts the run. The events of the earlier characters remain, and nothing is emitted for it or for any later character. |
| `SessionProperties.TypedNoStuckKeys` | xfake.c:152-159 | The loop's events release every pressed key, innermost first, before the next flush. |
| `SessionProperties.ClosesOnceAtEnd` | xfake.c:137-171 | On every path, normal or fatal, the display is closed exactly once, as the last call. |
| `SessionProperties.SessionNoStuckKeys` | xfake.c:142-171 | No key is held at any flush, at the close, or at exit. |
| `SessionProperties.ExitStatusIff` | xfake.c:137-171 | The exit status is 0 exactly when Shift has a keysym and every character of the line resolves. Otherwise it is -1. |
| `SessionProperties.NoShiftKeysymTypesNothing` | xfake.c:137-139 | Without a Shift keysym, the display is closed without any key event and the run is fatal. |
| `SessionProperties.SessionFlushesPerCharacter` | xfake.c:142-171 | A normal run flushes once per character of the line. |
| `SessionProperties.SessionReadsOnlyTheLine` | xfake.c:142-146 | Every run, normal or fatal, behaves as if the input ended at its first newline. |
| `SessionProperties.HiBang` | xfake.c:142-171 | `"Hi!\n"` gives Shift-H, i and Shift-exclam, each flushed, and then the close, with a normal outcome. |
| `SessionProperties.EmptyInput` | xfake.c:142-171 | Empty input gives only the close, with a normal outcome. |
| `SessionProperties.NumberSign` | xfake.c:142-171 | `"#\n"` gives one shifted numbersign keystroke and then the close. |
| `SessionProperties.ControlCharacterAborts` | xfake.c:142-171 | `"a\tb\n"` types `a`, then aborts at the tab with the display closed and nothing typed for `b`. |

## Left out

- Opening the display, first at `:0` and then at `:1` (xfake.c:131-135), and its failure path are not modelled. They are foreign library calls, and every run here starts with an open display.
- `XTestGrabControl` around each character (xfake.c:150, xfake.c:167) is not modelled. It only affects server grabs, and it adds no key events.
- The `delay` argument of every key event and the server's ordering of events (xfake.c:129, xfake.c:161-164) are not modelled. They are timing behaviour of the X server, so `Flush` is only a marker in the trace.
- `read(2)` is not modelled. The input is a given sequence, and a read error is indistinguishable from the end of input, which is where the sequence ends.
- The diagnostic text on standard error (the `DIE` macro) is not modelled. Only the fatal outcome, the offending character and the close of the display are.
- Character classes follow the "C" locale. `isupper` and `isalnum` on negative `char` values are undefined in C and are not modelled. Every non-ASCII character is treated as having no entry.
- `Injection.ExitStatus` is the value passed to `exit`. The operating system reports `exit(-1)` as 255, and that conversion is not modelled.
