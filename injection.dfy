/**
 * The injection loop of xfake's main program: read characters until a
 * newline or the end of input, and for each one press and release its key
 * (bracketed by Shift when the resolver asks for it), then flush the
 * display's queue.  A character without a keysym aborts the run; every way
 * out closes the display first.
 *
 * The run is observed as the trace of calls it makes on the display:
 * key-down and key-up events, flushes, and the final close.
 */
module Injection {
  import opened Keysyms

  datatype Event = Down(code: KeyCode) | Up(code: KeyCode) | Flush | Close

  /** Why a run was aborted. */
  datatype Failure =
    | NoShiftKeysym         // "Shift_L" has no keysym
    | NoKeysymFor(c: char)  // an input character has no entry in the resolver's table

  datatype Outcome = Ok | Fatal(failure: Failure)

  /** What a run did to the display, and how it ended. */
  datatype Trace = Trace(events: seq<Event>, outcome: Outcome)

  /** The trace `t` with the events `evs` in front of it. */
  function Prepend(evs: seq<Event>, t: Trace): Trace
  {
    Trace(evs + t.events, t.outcome)
  }

  lemma PrependTwice(a: seq<Event>, b: seq<Event>, t: Trace)
    ensures Prepend(a, Prepend(b, t)) == Prepend(a + b, t)
  {
  }

  /** The name whose keysym is looked up for the Shift key. */
  const ShiftName: string := "Shift_L"

  /** The process exit status: the source exits with -1 on every fatal path. */
  function ExitStatus(o: Outcome): (status: int)
    ensures status == 0 <==> o == Ok
    ensures status < 0 <==> o.Fatal?
    ensures o.Fatal? ==> status == -1
  {
    if o.Ok? then 0 else -1
  }

  // ---------------------------------------------------------------------
  // The keyboard as the display sees it.

  /**
   * Replays `evs` on a keyboard whose held keys form a stack `held`: every
   * key-up must release the most recently pressed key that is still down,
   * no key may be down at a flush or at the close, and none at the end.
   */
  predicate Replay(held: seq<KeyCode>, evs: seq<Event>)
    decreases |evs|
  {
    if evs == [] then held == []
    else match evs[0]
      case Down(k) => Replay(held + [k], evs[1..])
      case Up(k) => held != [] && held[|held| - 1] == k && Replay(held[..|held| - 1], evs[1..])
      case Flush => held == [] && Replay(held, evs[1..])
      case Close => held == [] && Replay(held, evs[1..])
  }

  /** Every key pressed is released, innermost first, before the next flush. */
  predicate NoStuckKeys(evs: seq<Event>)
  {
    Replay([], evs)
  }

  /** The number of flushes in `evs`. */
  function Flushes(evs: seq<Event>): nat
  {
    if evs == [] then 0 else (if evs[0] == Flush then 1 else 0) + Flushes(evs[1..])
  }

  lemma {:induction false} FlushesAppend(a: seq<Event>, b: seq<Event>)
    ensures Flushes(a + b) == Flushes(a) + Flushes(b)
  {
    if a == [] {
      assert a + b == b;
    } else {
      assert (a + b)[1..] == a[1..] + b;
      FlushesAppend(a[1..], b);
    }
  }

  /** A balanced stretch of events followed by another one is balanced. */
  lemma {:induction false} ReplayAppend(held: seq<KeyCode>, a: seq<Event>, b: seq<Event>)
    requires Replay(held, a)
    requires Replay([], b)
    ensures Replay(held, a + b)
    decreases |a|
  {
    if a == [] {
      assert a + b == b;
    } else {
      assert (a + b)[0] == a[0];
      assert (a + b)[1..] == a[1..] + b;
      match a[0]
      case Down(k) => ReplayAppend(held + [k], a[1..], b);
      case Up(k) => ReplayAppend(held[..|held| - 1], a[1..], b);
      case Flush => ReplayAppend(held, a[1..], b);
      case Close => ReplayAppend(held, a[1..], b);
    }
  }

  // ---------------------------------------------------------------------
  // One character.

  /**
   * The events for one character whose key code is `kc`: Shift down if
   * needed, the key pressed and released, Shift up if needed, then a flush.
   */
  function Keystroke(shiftKc: KeyCode, kc: KeyCode, shift: bool): (evs: seq<Event>)
    ensures |evs| == (if shift then 5 else 3) && evs[|evs| - 1] == Flush
  {
    if shift then [Down(shiftKc), Down(kc), Up(kc), Up(shiftKc), Flush]
    else [Down(kc), Up(kc), Flush]
  }

  /** An unshifted keystroke releases its key before its one flush. */
  lemma PlainShape(kc: KeyCode)
    ensures var evs := [Down(kc), Up(kc), Flush];
      Replay([], evs) && Flushes(evs) == 1
  {
    var flush := [Flush];
    assert flush[1..] == [];
    assert Replay([], flush) && Flushes(flush) == 1;
    var release := [Up(kc)] + flush;
    assert release[1..] == flush;
    assert [kc][..0] == [];
    assert Replay([kc], release) && Flushes(release) == 1;
    var evs := [Down(kc)] + release;
    assert evs[1..] == release;
    assert [] + [kc] == [kc];
  }

  /** A shifted keystroke releases its key, then Shift, before its one flush. */
  lemma ShiftedShape(shiftKc: KeyCode, kc: KeyCode)
    ensures var evs := [Down(shiftKc), Down(kc), Up(kc), Up(shiftKc), Flush];
      Replay([], evs) && Flushes(evs) == 1
  {
    var flush := [Flush];
    assert flush[1..] == [];
    assert Replay([], flush) && Flushes(flush) == 1;
    var unshift := [Up(shiftKc)] + flush;
    assert unshift[1..] == flush;
    assert [shiftKc][..0] == [];
    assert Replay([shiftKc], unshift) && Flushes(unshift) == 1;
    var inner := [Up(kc)] + unshift;
    assert inner[1..] == unshift;
    assert [shiftKc, kc][..1] == [shiftKc];
    assert Replay([shiftKc, kc], inner) && Flushes(inner) == 1;
    var press := [Down(kc)] + inner;
    assert press[1..] == inner;
    assert [shiftKc] + [kc] == [shiftKc, kc];
    assert Replay([shiftKc], press) && Flushes(press) == 1;
    var evs := [Down(shiftKc)] + press;
    assert evs[1..] == press;
    assert [] + [shiftKc] == [shiftKc];
    assert Replay([], evs) && Flushes(evs) == 1;
    assert evs == [Down(shiftKc), Down(kc), Up(kc), Up(shiftKc), Flush];
  }

  /**
   * One character leaves no key held, ends with its one flush, presses its
   * key and releases it at once, brackets that pair with Shift when Shift is
   * needed, and is only the pair and the flush when it is not.
   */
  lemma KeystrokeShape(shiftKc: KeyCode, kc: KeyCode, shift: bool)
    ensures var evs := Keystroke(shiftKc, kc, shift);
      && NoStuckKeys(evs)
      && Flushes(evs) == 1 && evs[|evs| - 1] == Flush
      && Close !in evs
      && (shift <==> |evs| == 5)
      && (!shift <==> |evs| == 3)
      && (var k := if shift then 1 else 0; evs[k] == Down(kc) && evs[k + 1] == Up(kc))
      && (shift ==> evs[0] == Down(shiftKc) && evs[3] == Up(shiftKc))
  {
    if shift {
      ShiftedShape(shiftKc, kc);
    } else {
      PlainShape(kc);
    }
  }

  // ---------------------------------------------------------------------
  // The loop.

  /** The characters the loop reads before it meets a newline. */
  function Line(s: seq<char>): (r: seq<char>)
    ensures r <= s
    ensures '\n' !in r
    ensures |r| < |s| ==> s[|r|] == '\n'
  {
    if s == [] || s[0] == '\n' then [] else [s[0]] + Line(s[1..])
  }

  /**
   * The loop of main, from the first character of `s` on, once the Shift
   * key code is known: the events it emits and whether it hit a character
   * without a keysym.  The shift flag starts false for every character.
   */
  function Typed(km: Keymap, shiftKc: KeyCode, s: seq<char>): (t: Trace)
    ensures Close !in t.events
    ensures t.outcome != Fatal(NoShiftKeysym)
  {
    if s == [] || s[0] == '\n' then Trace([], Ok)
    else match LookupKeycode(km, s[0], false)
      case None => Trace([], Fatal(NoKeysymFor(s[0])))
      case Some((kc, shift)) => Prepend(Keystroke(shiftKc, kc, shift), Typed(km, shiftKc, s[1..]))
  }

  /** The whole program: look up Shift, run the loop, close the display. */
  function Session(km: Keymap, input: seq<char>): (t: Trace)
    ensures t.events != [] && t.events[|t.events| - 1] == Close
    ensures t.outcome == Fatal(NoShiftKeysym) <==> km.keysym(ShiftName) == NoSymbol
  {
    if km.keysym(ShiftName) == NoSymbol then Trace([Close], Fatal(NoShiftKeysym))
    else
      var loop := Typed(km, km.keycode(km.keysym(ShiftName)), input);
      Trace(loop.events + [Close], loop.outcome)
  }

  /** One turn of the loop: a character with a keysym, then the rest of the input. */
  lemma TypedStep(km: Keymap, shiftKc: KeyCode, s: seq<char>, kc: KeyCode, shift: bool)
    requires s != [] && s[0] != '\n'
    requires LookupKeycode(km, s[0], false) == Some((kc, shift))
    ensures Typed(km, shiftKc, s) == Prepend(Keystroke(shiftKc, kc, shift), Typed(km, shiftKc, s[1..]))
  {
  }

  /** The loop stops, without events, at a newline or at the end of the input. */
  lemma TypedStop(km: Keymap, shiftKc: KeyCode, s: seq<char>)
    requires s == [] || s[0] == '\n'
    ensures Typed(km, shiftKc, s) == Trace([], Ok)
  {
  }

  /** The loop stops, without events for it, at a character that has no keysym. */
  lemma TypedFail(km: Keymap, shiftKc: KeyCode, s: seq<char>)
    requires s != [] && s[0] != '\n'
    requires LookupKeycode(km, s[0], false).None?
    ensures Typed(km, shiftKc, s) == Trace([], Fatal(NoKeysymFor(s[0])))
  {
  }

  /**
   * The loop of main: one character per iteration, appending the calls it
   * makes on the display to `events`, until a newline, the end of the input
   * or a character without a keysym.
   */
  method TypeLine(km: Keymap, shiftKc: KeyCode, input: seq<char>) returns (events: seq<Event>, outcome: Outcome)
    ensures Trace(events, outcome) == Typed(km, shiftKc, input)
  {
    events := [];
    var i := 0;
    while i < |input|
      invariant 0 <= i <= |input|
      invariant Typed(km, shiftKc, input) == Prepend(events, Typed(km, shiftKc, input[i..]))
    {
      var c := input[i];
      var shift := false;
      if c == '\n' {
        TypedStop(km, shiftKc, input[i..]);
        break;
      }
      var found := LookupKeycode(km, c, shift);
      if found.None? {
        TypedFail(km, shiftKc, input[i..]);
        outcome := Fatal(NoKeysymFor(c));
        return;
      }
      var kc := found.value.0;
      shift := found.value.1;
      ghost var before := events;
      if shift {
        events := events + [Down(shiftKc)];
      }
      events := events + [Down(kc), Up(kc)];
      if shift {
        events := events + [Up(shiftKc)];
      }
      events := events + [Flush];
      assert events == before + Keystroke(shiftKc, kc, shift);
      TypedStep(km, shiftKc, input[i..], kc, shift);
      assert input[i..][1..] == input[i + 1..];
      PrependTwice(before, Keystroke(shiftKc, kc, shift), Typed(km, shiftKc, input[i + 1..]));
      i := i + 1;
    }
    if i == |input| {
      TypedStop(km, shiftKc, input[i..]);
    }
    outcome := Ok;
  }

  /**
   * main: look up the Shift key, run the loop, and close the display on
   * every way out.
   */
  method RunSession(km: Keymap, input: seq<char>) returns (events: seq<Event>, outcome: Outcome)
    ensures Trace(events, outcome) == Session(km, input)
  {
    var shiftKs := km.keysym(ShiftName);
    if shiftKs == NoSymbol {
      events := [Close];
      outcome := Fatal(NoShiftKeysym);
      return;
    }
    var shiftKc := km.keycode(shiftKs);
    events, outcome := TypeLine(km, shiftKc, input);
    events := events + [Close];
  }
}
