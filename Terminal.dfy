/** The interactive terminal of the hero section: a line buffer filled by
    key presses, a history of input and output entries, and a `busy` flag
    that holds while a submitted line waits for its artificial 80 ms delay.
    The delay is a discrete step: `Submit` (Enter) and `Resolve` (the timer
    fires). */
module Terminal {
  import opened Text
  import opened Wrappers

  const Handle := "sujay@supercompute"

  /** The prompt echoed in front of every submitted line. */
  const Prompt := Handle + ":~$ "

  /** The names of the command table, in declaration order. */
  const CommandNames: seq<string> :=
    ["help", "whoami", "title", "roles", "skills", "stack", "projects", "experience", "socials", "contact", "clear"]

  /** The names the `help` command prints. */
  const HelpListing: seq<string> :=
    ["whoami", "title", "roles", "skills", "stack", "projects", "experience", "socials", "contact", "clear"]

  /** What an output entry shows: the welcome banner, the rendering of a
      table command, the unknown-command message, or the empty element
      that `clear` returns. `PlainObject` is the `{}` that the inherited
      `Object` constructor returns, which React cannot render as a child. */
  datatype Output = Welcome | Rendered(command: string) | Unknown(message: string) | Blank | PlainObject

  /** The history renders when no entry is a plain object; otherwise React
      throws while rendering it. */
  predicate Renders(history: seq<Entry>)
  {
    forall k :: 0 <= k < |history| ==> history[k] != Shown(PlainObject)
  }

  datatype Entry = Input(line: string) | Shown(output: Output)

  datatype Key = Key(name: string, meta: bool, ctrl: bool, alt: bool)

  datatype TermState = TermState(buffer: string, history: seq<Entry>, busy: bool, pending: Option<string>)
  {
    /** `busy` holds exactly while a normalised command waits for its timer. */
    predicate Valid() { busy <==> pending.Some? }
  }

  /** The state after mounting: an empty buffer and the welcome entry that
      the mount effect adds to the empty history. */
  function Initial(): (s: TermState)
    ensures s.Valid() && s.buffer == "" && !s.busy
    ensures s.history == [Shown(Welcome)]
  {
    TermState("", [Shown(Welcome)], false, None)
  }

  /** The key the table is consulted with. */
  function Normalize(raw: string): string
  {
    Lower(Trim(raw))
  }

  function UnknownMessage(cmd: string): string
  {
    "Unknown command: " + cmd + ". Try help."
  }

  /** The output entry for a normalised command: own keys of the table
      only. */
  function Resolve(cmd: string): Output
  {
    if cmd == "clear" then Blank
    else if cmd in CommandNames then Rendered(cmd)
    else Unknown(UnknownMessage(cmd))
  }

  /** `s.slice(0, -1)`. */
  function DropLast(s: string): string
  {
    if |s| == 0 then s else s[..|s| - 1]
  }

  predicate Printable(k: Key)
  {
    |k.name| == 1 && !k.meta && !k.ctrl && !k.alt
  }

  /** `run(raw)` up to its delay: a line that normalises to nothing is
      dropped; otherwise the echo entry is appended and `busy` is set. */
  function Submit(s: TermState, raw: string): TermState
  {
    var cmd := Normalize(raw);
    if cmd == "" then s
    else s.(busy := true, history := s.history + [Input(Prompt + raw)], pending := Some(cmd))
  }

  /** The key handler. */
  function OnKey(s: TermState, k: Key): TermState
  {
    if s.busy then s
    else if k.name == "Enter" then Submit(s.(buffer := ""), s.buffer)
    else if k.name == "Backspace" then s.(buffer := DropLast(s.buffer))
    else if Printable(k) then s.(buffer := s.buffer + k.name)
    else s
  }

  /** The rest of `run(raw)` once the delay has passed: `clear` empties the
      history before the output is appended; `busy` drops. */
  function OnTimer(s: TermState): TermState
    requires s.pending.Some?
  {
    var cmd := s.pending.value;
    var before := if cmd == "clear" then [] else s.history;
    s.(history := before + [Shown(Resolve(cmd))], busy := false, pending := None)
  }

  lemma KeysKeepValid(s: TermState, k: Key)
    requires s.Valid()
    ensures OnKey(s, k).Valid()
    ensures s.pending.Some? ==> OnTimer(s).Valid() && !OnTimer(s).busy
  {
  }

  /** A one-character key without modifiers appends exactly that character;
      history and `busy` are untouched. */
  lemma PrintableAppends(s: TermState, k: Key)
    requires !s.busy && Printable(k)
    ensures OnKey(s, k) == s.(buffer := s.buffer + k.name)
    ensures |OnKey(s, k).buffer| == |s.buffer| + 1 && OnKey(s, k).buffer[..|s.buffer|] == s.buffer
  {
  }

  /** Backspace removes the last character, and leaves an empty buffer
      empty. */
  lemma BackspaceRemovesLast(s: TermState, k: Key)
    requires !s.busy && k.name == "Backspace"
    ensures OnKey(s, k).history == s.history && OnKey(s, k).busy == s.busy
    ensures s.buffer == "" ==> OnKey(s, k).buffer == ""
    ensures s.buffer != "" ==> OnKey(s, k).buffer + [s.buffer[|s.buffer| - 1]] == s.buffer
  {
  }

  /** While a submission is in flight every key is ignored. */
  lemma BusyIgnoresKeys(s: TermState, k: Key)
    requires s.busy
    ensures OnKey(s, k) == s
  {
  }

  /** Enter empties the buffer and submits its previous contents verbatim. */
  lemma EnterSubmitsBuffer(s: TermState, k: Key)
    requires !s.busy && k.name == "Enter"
    ensures OnKey(s, k).buffer == ""
    ensures Normalize(s.buffer) != "" ==>
      OnKey(s, k).history == s.history + [Input(Prompt + s.buffer)]
      && OnKey(s, k).pending == Some(Normalize(s.buffer)) && OnKey(s, k).busy
  {
  }

  /** A line that is blank after trimming adds no entry and leaves `busy`
      false. */
  lemma BlankLineIgnored(s: TermState, k: Key)
    requires !s.busy && k.name == "Enter" && AllSpace(s.buffer)
    ensures OnKey(s, k) == s.(buffer := "")
  {
    TrimEmptyIffAllSpace(s.buffer);
  }

  /** A non-blank line, once its timer fires, adds exactly one input entry
      (the prompt and the raw text) and one output entry, and ends not busy.
      `clear` instead leaves exactly one, empty, output entry. */
  lemma SubmissionAppendsTwoEntries(s: TermState, k: Key)
    requires s.Valid() && !s.busy && k.name == "Enter" && !AllSpace(s.buffer)
    ensures OnKey(s, k).pending.Some?
    ensures Normalize(s.buffer) != "clear" ==>
      OnTimer(OnKey(s, k)).history
        == s.history + [Input(Prompt + s.buffer), Shown(Resolve(Normalize(s.buffer)))]
    ensures Normalize(s.buffer) == "clear" ==> OnTimer(OnKey(s, k)).history == [Shown(Blank)]
    ensures !OnTimer(OnKey(s, k)).busy && OnTimer(OnKey(s, k)).buffer == ""
  {
    TrimEmptyIffAllSpace(s.buffer);
  }

  /** The table is consulted with the lower case of the trimmed line:
      surrounding white space and letter case do not matter. */
  lemma {:induction false} NormalizePadded(p: string, core: string, q: string)
    requires AllSpace(p) && AllSpace(q)
    requires core != [] && !IsSpace(core[0]) && !IsSpace(core[|core| - 1])
    ensures Normalize(p + core + q) == Lower(core)
  {
    TrimPadded(p, core, q);
  }

  /** `HeLp` between any two runs of white space is looked up as `help`. */
  lemma HelpInAnyCase(p: string, q: string)
    requires AllSpace(p) && AllSpace(q)
    ensures Normalize(p + "HeLp" + q) == "help"
  {
    NormalizePadded(p, "HeLp", q);
    assert Lower("HeLp") == "help";
  }

  /** Every table name other than `clear` renders that command, `clear`
      renders the empty element, and any other name the unknown-command
      message naming it. */
  lemma ResolveCases(cmd: string)
    ensures cmd in CommandNames && cmd != "clear" <==> Resolve(cmd) == Rendered(cmd)
    ensures cmd == "clear" <==> Resolve(cmd) == Blank
    ensures cmd !in CommandNames <==> Resolve(cmd) == Unknown(UnknownMessage(cmd))
  {
  }

  /** `help` lists every other command of the table and nothing else, so
      every name it prints is recognised: it renders that command, or the
      empty element for `clear`. */
  lemma HelpListsTable()
    ensures Resolve("help") == Rendered("help")
    ensures forall n :: n in HelpListing <==> n in CommandNames && n != "help"
    ensures forall n :: n in HelpListing ==> Resolve(n) == Rendered(n) || Resolve(n) == Blank
  {
  }

  /** The terminal as the component holds it: three state cells and the
      command captured by the pending timer. */
  class Console {
    var buffer: string
    var history: seq<Entry>
    var busy: bool
    var pending: Option<string>

    function State(): TermState
      reads this
    {
      TermState(buffer, history, busy, pending)
    }

    constructor ()
      ensures State() == Initial()
    {
      buffer, history, busy, pending := "", [Shown(Welcome)], false, None;
    }

    /** `onKeyDown`. */
    method KeyDown(k: Key)
      requires State().Valid()
      modifies this
      ensures State() == OnKey(old(State()), k) && State().Valid()
    {
      if busy {
        return;
      }
      if k.name == "Enter" {
        var current := buffer;
        buffer := "";
        var cmd := Normalize(current);
        if cmd == "" {
          return;
        }
        busy := true;
        history := history + [Input(Prompt + current)];
        pending := Some(cmd);
        return;
      }
      if k.name == "Backspace" {
        buffer := DropLast(buffer);
        return;
      }
      if |k.name| == 1 && !k.meta && !k.ctrl && !k.alt {
        buffer := buffer + k.name;
      }
    }

    /** The 80 ms timer of `run` fires. */
    method TimerFires()
      requires State().Valid() && busy
      modifies this
      ensures State() == OnTimer(old(State())) && State().Valid() && !busy
    {
      var cmd := pending.value;
      var output := Resolve(cmd);
      if cmd == "clear" {
        history := [];
      }
      history := history + [Shown(output)];
      busy := false;
      pending := None;
    }
  }

  // ---------------------------------------------------------------------
  // The lookup as written: `commands[cmd]` reads a plain object literal, so
  // a normalised command that names a property inherited from
  // Object.prototype finds that property. The only such names that are
  // lower case are `constructor` and `__proto__`.

  datatype Handler = Own(name: string) | Inherited(name: string) | Absent

  function LookupAsWritten(cmd: string): Handler
  {
    if cmd in CommandNames then Own(cmd)
    else if cmd == "constructor" || cmd == "__proto__" then Inherited(cmd)
    else Absent
  }

  /** What the timer callback does as written. `__proto__` yields
      Object.prototype, which is not callable: `handler()` throws inside the
      async `run`, so neither the output entry nor `setBusy(false)` happens.
      `constructor` yields `Object`, and `Object()` returns `{}`: that
      object is appended as the output and `busy` drops. */
  function OnTimerAsWritten(s: TermState): TermState
    requires s.pending.Some?
  {
    var cmd := s.pending.value;
    if LookupAsWritten(cmd) == Inherited("__proto__") then s.(pending := None)
    else if LookupAsWritten(cmd) == Inherited("constructor") then
      s.(history := s.history + [Shown(PlainObject)], busy := false, pending := None)
    else OnTimer(s)
  }

  /** Feeds the characters of `line` as plain key presses. */
  function TypeLine(s: TermState, line: string): TermState
    decreases |line|
  {
    if line == [] then s
    else TypeLine(OnKey(s, Key([line[0]], false, false, false)), line[1..])
  }

  /** Typing a line on an idle terminal appends it to the buffer and
      touches nothing else. */
  lemma {:induction false} TypeLineAppends(s: TermState, line: string)
    requires !s.busy
    ensures TypeLine(s, line) == s.(buffer := s.buffer + line)
    decreases |line|
  {
    if line != [] {
      var next := OnKey(s, Key([line[0]], false, false, false));
      assert next == s.(buffer := s.buffer + [line[0]]);
      TypeLineAppends(next, line[1..]);
      assert s.buffer + [line[0]] + line[1..] == s.buffer + line;
    }
  }

  /** A line without padding or upper-case letters, typed on the fresh
      terminal, sits in the buffer and is looked up as itself. `__proto__`
      is such a line. */
  lemma TypedLineIsItsKey(line: string)
    requires line != [] && !IsSpace(line[0]) && !IsSpace(line[|line| - 1])
    requires forall k :: 0 <= k < |line| ==> !('A' <= line[k] <= 'Z')
    ensures TypeLine(Initial(), line).buffer == line
    ensures !TypeLine(Initial(), line).busy && TypeLine(Initial(), line).Valid()
    ensures Normalize(TypeLine(Initial(), line).buffer) == line
  {
    var s0 := Initial();
    TypeLineAppends(s0, line);
    assert s0.buffer + line == line;
    NormalizeFixed(line);
  }

  lemma TypingProto()
    ensures Normalize(TypeLine(Initial(), "__proto__").buffer) == "__proto__"
    ensures !TypeLine(Initial(), "__proto__").busy && TypeLine(Initial(), "__proto__").Valid()
  {
    TypedLineIsItsKey("__proto__");
  }

  /** A line without padding or upper-case letters is its own key. */
  lemma NormalizeFixed(line: string)
    requires line != [] && !IsSpace(line[0]) && !IsSpace(line[|line| - 1])
    requires forall k :: 0 <= k < |line| ==> !('A' <= line[k] <= 'Z')
    ensures Normalize(line) == line
  {
    TrimPadded("", line, "");
    assert "" + line + "" == line;
    LowerOfLower(line);
  }

  /** Submitting a line that normalises to `__proto__` leaves the terminal
      busy with nothing pending, so every later key is ignored for good. */
  lemma ProtoLocksTerminal(s: TermState, enter: Key, k: Key)
    requires s.Valid() && !s.busy && enter.name == "Enter" && Normalize(s.buffer) == "__proto__"
    ensures OnKey(s, enter).pending == Some("__proto__")
    ensures var stuck := OnTimerAsWritten(OnKey(s, enter));
            stuck.busy && stuck.pending == None && OnKey(stuck, k) == stuck
  {
  }

  /** With the own-key lookup the same line is an unknown command and the
      terminal is free again. */
  lemma ProtoIsUnknownCommand(s: TermState, enter: Key)
    requires s.Valid() && !s.busy && enter.name == "Enter" && Normalize(s.buffer) == "__proto__"
    ensures var done := OnTimer(OnKey(s, enter));
            !done.busy && done.history == s.history + [Input(Prompt + s.buffer), Shown(Unknown(UnknownMessage("__proto__")))]
  {
  }

  /** Submitting a line that normalises to `constructor` appends `{}` as
      the output, so the history no longer renders: React throws on it. */
  lemma ConstructorBreaksRender(s: TermState, enter: Key)
    requires s.Valid() && !s.busy && enter.name == "Enter" && Normalize(s.buffer) == "constructor"
    ensures OnKey(s, enter).pending == Some("constructor")
    ensures var after := OnTimerAsWritten(OnKey(s, enter));
            !after.busy && after.history[|after.history| - 1] == Shown(PlainObject) && !Renders(after.history)
  {
    var after := OnTimerAsWritten(OnKey(s, enter));
    assert after.history[|after.history| - 1] == Shown(PlainObject);
  }

  /** With the own-key lookup every timer step keeps a renderable history
      renderable; `constructor` in particular is an unknown command. */
  lemma OnTimerRenders(s: TermState)
    requires s.pending.Some? && Renders(s.history)
    ensures Renders(OnTimer(s).history)
    ensures s.pending == Some("constructor") ==>
              OnTimer(s).history == s.history + [Shown(Unknown(UnknownMessage("constructor")))]
  {
    var h := OnTimer(s).history;
    forall k | 0 <= k < |h| ensures h[k] != Shown(PlainObject) {
      if k == |h| - 1 {
        assert h[k] == Shown(Resolve(s.pending.value));
      }
    }
  }
}
