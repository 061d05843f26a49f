/**
 * What a run of xfake does to the display, stated over the specification
 * functions `Typed` (the loop) and `Session` (the whole program) that the
 * methods `TypeLine` and `RunSession` are proved to compute.
 */
module SessionProperties {
  import opened Keysyms
  import opened Injection

  /** Every character of `s` has an entry in the resolver's table. */
  predicate AllResolve(s: seq<char>)
  {
    forall i :: 0 <= i < |s| ==> Resolve(s[i]).Some?
  }

  // ---------------------------------------------------------------------
  // The loop.

  /** Nothing after the first newline matters: the loop reads exactly the line. */
  lemma {:induction false} TypedStopsAtNewline(km: Keymap, shiftKc: KeyCode, s: seq<char>)
    ensures Typed(km, shiftKc, s) == Typed(km, shiftKc, Line(s))
  {
    if s == [] || s[0] == '\n' {
    } else {
      var line := Line(s);
      assert line[0] == s[0] && line[1..] == Line(s[1..]);
      TypedStopsAtNewline(km, shiftKc, s[1..]);
    }
  }

  /** The loop ends normally exactly when every character of the line has a keysym. */
  lemma {:induction false} TypedOkIff(km: Keymap, shiftKc: KeyCode, s: seq<char>)
    ensures Typed(km, shiftKc, s).outcome == Ok <==> AllResolve(Line(s))
  {
    if s == [] || s[0] == '\n' {
    } else {
      var line := Line(s);
      assert line[0] == s[0] && line[1..] == Line(s[1..]);
      TypedOkIff(km, shiftKc, s[1..]);
      if Resolve(s[0]).Some? {
        assert AllResolve(line) <==> AllResolve(line[1..]) by {
          if AllResolve(line[1..]) {
            forall i | 0 <= i < |line| ensures Resolve(line[i]).Some? {
              if i > 0 { assert line[i] == line[1..][i - 1]; }
            }
          }
        }
      }
    }
  }

  /**
   * One flush per character processed: on a normal end, one per character
   * of the line; on a fatal one, the number of flushes is the position in
   * the line of the character that has no keysym, and every character
   * before it has one.
   */
  lemma {:induction false} TypedFlushes(km: Keymap, shiftKc: KeyCode, s: seq<char>)
    ensures var t := Typed(km, shiftKc, s);
      && (t.outcome == Ok ==> Flushes(t.events) == |Line(s)|)
      && (t.outcome.Fatal? ==>
            var n := Flushes(t.events);
            && n < |Line(s)|
            && t.outcome == Fatal(NoKeysymFor(Line(s)[n]))
            && Resolve(Line(s)[n]) == None
            && AllResolve(Line(s)[..n]))
  {
    if s == [] || s[0] == '\n' {
    } else {
      var line := Line(s);
      assert line[0] == s[0] && line[1..] == Line(s[1..]);
      match LookupKeycode(km, s[0], false)
      case None =>
        assert Flushes([]) == 0;
        assert line[..0] == [];
      case Some((kc, shift)) =>
        var rest := Typed(km, shiftKc, s[1..]);
        TypedFlushes(km, shiftKc, s[1..]);
        KeystrokeShape(shiftKc, kc, shift);
        FlushesAppend(Keystroke(shiftKc, kc, shift), rest.events);
        if rest.outcome.Fatal? {
          var n := Flushes(rest.events);
          assert line[n + 1] == line[1..][n];
          forall i | 0 <= i < n + 1 ensures Resolve(line[i]).Some? {
            if i > 0 {
              assert line[i] == line[1..][..n][i - 1];
            }
          }
          assert AllResolve(line[..n + 1]);
        }
    }
  }

  /**
   * The run of a stretch of resolvable characters without a newline,
   * followed by more input: its events, then those of the rest.  So one
   * character's Shift never carries into the next, and the events of a
   * run are the events of its characters one after the other.
   */
  lemma {:induction false} TypedConcat(km: Keymap, shiftKc: KeyCode, s: seq<char>, t: seq<char>)
    requires '\n' !in s
    requires AllResolve(s)
    ensures Typed(km, shiftKc, s).outcome == Ok
    ensures Typed(km, shiftKc, s + t) == Prepend(Typed(km, shiftKc, s).events, Typed(km, shiftKc, t))
  {
    if s == [] {
      assert s + t == t;
    } else {
      assert (s + t)[0] == s[0] && (s + t)[1..] == s[1..] + t;
      assert s[0] in s;
      assert AllResolve(s[1..]) by {
        forall i | 0 <= i < |s[1..]| ensures Resolve(s[1..][i]).Some? {
          assert s[1..][i] == s[i + 1];
        }
      }
      assert '\n' !in s[1..];
      assert Resolve(s[0]).Some?;
      TypedConcat(km, shiftKc, s[1..], t);
      var found := LookupKeycode(km, s[0], false);
      PrependTwice(Keystroke(shiftKc, found.value.0, found.value.1), Typed(km, shiftKc, s[1..]).events, Typed(km, shiftKc, t));
    }
  }

  /** A single character with a keysym yields exactly its keystroke. */
  lemma OneCharacter(km: Keymap, shiftKc: KeyCode, c: char)
    requires Resolve(c).Some?
    ensures var (name, shift) := Resolve(c).value;
      Typed(km, shiftKc, [c]) == Trace(Keystroke(shiftKc, km.keycode(km.keysym(name)), shift), Ok)
  {
    assert [c][1..] == [];
  }

  /**
   * A character without a keysym at position `j` of the line ends the run:
   * the events of the characters before it remain, none are added for it
   * or for anything after it.
   */
  lemma FatalKeepsEarlierEvents(km: Keymap, shiftKc: KeyCode, s: seq<char>, j: nat)
    requires j < |Line(s)|
    requires Resolve(s[j]) == None
    requires AllResolve(s[..j])
    ensures Typed(km, shiftKc, s[..j]).outcome == Ok
    ensures Typed(km, shiftKc, s) == Trace(Typed(km, shiftKc, s[..j]).events, Fatal(NoKeysymFor(s[j])))
  {
    var line := Line(s);
    assert s[..j] == line[..j];
    assert '\n' !in s[..j];
    assert s == s[..j] + s[j..];
    TypedConcat(km, shiftKc, s[..j], s[j..]);
    assert s[j..][0] == s[j] && s[j] == line[j];
    TypedFail(km, shiftKc, s[j..]);
  }

  /** The loop never leaves a key held at a flush, nor at its end. */
  lemma {:induction false} TypedNoStuckKeys(km: Keymap, shiftKc: KeyCode, s: seq<char>)
    ensures NoStuckKeys(Typed(km, shiftKc, s).events)
  {
    if s == [] || s[0] == '\n' {
    } else {
      match LookupKeycode(km, s[0], false)
      case None =>
      case Some((kc, shift)) =>
        TypedNoStuckKeys(km, shiftKc, s[1..]);
        KeystrokeShape(shiftKc, kc, shift);
        ReplayAppend([], Keystroke(shiftKc, kc, shift), Typed(km, shiftKc, s[1..]).events);
    }
  }

  // ---------------------------------------------------------------------
  // The whole program.

  /** Every run, normal or fatal, closes the display exactly once, as its last call. */
  lemma ClosesOnceAtEnd(km: Keymap, input: seq<char>)
    ensures var evs := Session(km, input).events;
      evs != [] && evs[|evs| - 1] == Close && Close !in evs[..|evs| - 1]
  {
    var evs := Session(km, input).events;
    if km.keysym(ShiftName) != NoSymbol {
      assert evs[..|evs| - 1] == Typed(km, km.keycode(km.keysym(ShiftName)), input).events;
    }
  }

  /** No key is left held at any flush, at the close, or when the program exits. */
  lemma SessionNoStuckKeys(km: Keymap, input: seq<char>)
    ensures NoStuckKeys(Session(km, input).events)
  {
    assert [Close][1..] == [];
    if km.keysym(ShiftName) != NoSymbol {
      var shiftKc := km.keycode(km.keysym(ShiftName));
      TypedNoStuckKeys(km, shiftKc, input);
      ReplayAppend([], Typed(km, shiftKc, input).events, [Close]);
    }
  }

  /**
   * The exit status is 0 exactly when Shift has a keysym and every
   * character before the first newline has one; otherwise it is -1.
   */
  lemma ExitStatusIff(km: Keymap, input: seq<char>)
    ensures ExitStatus(Session(km, input).outcome) == 0
        <==> km.keysym(ShiftName) != NoSymbol && AllResolve(Line(input))
    ensures ExitStatus(Session(km, input).outcome) != 0 ==> ExitStatus(Session(km, input).outcome) == -1
  {
    if km.keysym(ShiftName) != NoSymbol {
      TypedOkIff(km, km.keycode(km.keysym(ShiftName)), input);
    }
  }

  /** Without a keysym for Shift nothing is typed: the display is only closed. */
  lemma NoShiftKeysymTypesNothing(km: Keymap, input: seq<char>)
    requires km.keysym(ShiftName) == NoSymbol
    ensures Session(km, input) == Trace([Close], Fatal(NoShiftKeysym))
  {
  }

  /** A normal run flushes once per character of the line. */
  lemma SessionFlushesPerCharacter(km: Keymap, input: seq<char>)
    requires Session(km, input).outcome == Ok
    ensures Flushes(Session(km, input).events) == |Line(input)|
  {
    var shiftKc := km.keycode(km.keysym(ShiftName));
    var t := Typed(km, shiftKc, input);
    TypedFlushes(km, shiftKc, input);
    FlushesAppend(t.events, [Close]);
    assert [Close][1..] == [];
  }

  /** Every run, normal or fatal, behaves as if the input ended at its first newline. */
  lemma SessionReadsOnlyTheLine(km: Keymap, input: seq<char>)
    ensures Session(km, input) == Session(km, Line(input))
  {
    if km.keysym(ShiftName) != NoSymbol {
      TypedStopsAtNewline(km, km.keycode(km.keysym(ShiftName)), input);
    }
  }

  // ---------------------------------------------------------------------
  // Sample runs.

  /** "Hi!" and a newline: Shift-H, i, Shift-!, each flushed, then the close. */
  lemma HiBang(km: Keymap)
    requires km.keysym(ShiftName) != NoSymbol
    ensures var s := km.keycode(km.keysym(ShiftName));
      var h := km.keycode(km.keysym("H"));
      var i := km.keycode(km.keysym("i"));
      var bang := km.keycode(km.keysym("exclam"));
      Session(km, "Hi!\n") == Trace(
        [Down(s), Down(h), Up(h), Up(s), Flush,
         Down(i), Up(i), Flush,
         Down(s), Down(bang), Up(bang), Up(s), Flush,
         Close], Ok)
  {
    var s := km.keycode(km.keysym(ShiftName));
    var input := "Hi!\n";
    assert input[1..] == "i!\n" && input[1..][1..] == "!\n" && input[1..][1..][1..] == "\n";
    assert Typed(km, s, "\n") == Trace([], Ok);
    assert Typed(km, s, "!\n") == Prepend(Keystroke(s, km.keycode(km.keysym("exclam")), true), Trace([], Ok));
    assert Typed(km, s, "i!\n") == Prepend(Keystroke(s, km.keycode(km.keysym("i")), false), Typed(km, s, "!\n"));
    assert Typed(km, s, input) == Prepend(Keystroke(s, km.keycode(km.keysym("H")), true), Typed(km, s, "i!\n"));
  }

  /** Empty input: no key events, the display is closed, exit status 0. */
  lemma EmptyInput(km: Keymap)
    requires km.keysym(ShiftName) != NoSymbol
    ensures Session(km, "") == Trace([Close], Ok)
  {
  }

  /** "#" and a newline: one shifted keystroke for numbersign. */
  lemma NumberSign(km: Keymap)
    requires km.keysym(ShiftName) != NoSymbol
    ensures var s := km.keycode(km.keysym(ShiftName));
      var k := km.keycode(km.keysym("numbersign"));
      Session(km, "#\n") == Trace([Down(s), Down(k), Up(k), Up(s), Flush, Close], Ok)
  {
    var s := km.keycode(km.keysym(ShiftName));
    var k := km.keycode(km.keysym("numbersign"));
    assert "#\n"[1..] == "\n";
    assert Typed(km, s, "\n") == Trace([], Ok);
    assert Typed(km, s, "#\n") == Prepend(Keystroke(s, k, true), Trace([], Ok));
  }

  /** A tab after "a": the "a" is typed, then the run aborts with status -1. */
  lemma ControlCharacterAborts(km: Keymap)
    requires km.keysym(ShiftName) != NoSymbol
    ensures var a := km.keycode(km.keysym("a"));
      Session(km, "a\tb\n") == Trace([Down(a), Up(a), Flush, Close], Fatal(NoKeysymFor('\t')))
  {
    var s := km.keycode(km.keysym(ShiftName));
    var a := km.keycode(km.keysym("a"));
    assert "a\tb\n"[1..] == "\tb\n";
    assert Resolve('\t') == None;
    assert Typed(km, s, "\tb\n") == Trace([], Fatal(NoKeysymFor('\t')));
    assert Typed(km, s, "a\tb\n") == Prepend(Keystroke(s, a, false), Typed(km, s, "\tb\n"));
  }
}
