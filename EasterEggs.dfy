/** The easter-egg provider: four visual toggles flipped by single-letter
    shortcuts, and a sliding window over the last ten key names that turns
    the glow on when it spells the Konami sequence. */
module EasterEggs {
  import opened Text

  const Konami: seq<string> :=
    ["ArrowUp", "ArrowUp", "ArrowDown", "ArrowDown", "ArrowLeft", "ArrowRight", "ArrowLeft", "ArrowRight", "b", "a"]

  /** The window holds at most as many keys as the sequence has. */
  const WindowSize := 10

  datatype Toggles = Toggles(matrix: bool, particles: bool, grid: bool, glow: bool)

  datatype EggState = EggState(toggles: Toggles, window: seq<string>)

  /** Matrix rain, particles and grid start on; the glow starts off. */
  function InitialState(): (s: EggState)
    ensures s.toggles.matrix && s.toggles.particles && s.toggles.grid && !s.toggles.glow
    ensures s.window == []
  {
    EggState(Toggles(true, true, true, false), [])
  }

  /** The four `if` statements of the handler: `g`, `p`, `m` and `t`. */
  function Shortcut(t: Toggles, key: string): Toggles
  {
    var t1 := if key == "g" then t.(grid := !t.grid) else t;
    var t2 := if key == "p" then t1.(particles := !t1.particles) else t1;
    var t3 := if key == "m" then t2.(matrix := !t2.matrix) else t2;
    if key == "t" then t3.(glow := !t3.glow) else t3
  }

  /** `push` the key, then `shift` once if the window grew past ten. */
  function Slide(window: seq<string>, key: string): seq<string>
  {
    var w := window + [key];
    if |w| > |Konami| then w[1..] else w
  }

  /** The comparison as written: both sides joined with commas. */
  predicate KonamiMatch(window: seq<string>)
  {
    Join(window, ",") == Join(Konami, ",")
  }

  /** The `keydown` handler. */
  function OnKey(s: EggState, key: string): EggState
  {
    var t := Shortcut(s.toggles, key);
    var w := Slide(s.window, key);
    EggState(if KonamiMatch(w) then t.(glow := true) else t, w)
  }

  /** Each shortcut key negates exactly its own toggle; every other key
      changes none. */
  lemma ShortcutFlipsOne(t: Toggles, key: string)
    ensures key == "g" ==> Shortcut(t, key) == t.(grid := !t.grid)
    ensures key == "p" ==> Shortcut(t, key) == t.(particles := !t.particles)
    ensures key == "m" ==> Shortcut(t, key) == t.(matrix := !t.matrix)
    ensures key == "t" ==> Shortcut(t, key) == t.(glow := !t.glow)
    ensures key !in {"g", "p", "m", "t"} ==> Shortcut(t, key) == t
  {
  }

  /** Pressing the same shortcut twice restores every toggle. */
  lemma ShortcutTwiceRestores(t: Toggles, key: string)
    ensures Shortcut(Shortcut(t, key), key) == t
  {
  }

  /** The last `min(|keys|, 10)` keys of a history. */
  function LastKeys(keys: seq<string>): seq<string>
  {
    if |keys| <= WindowSize then keys else keys[|keys| - WindowSize..]
  }

  /** The window after a whole history of key presses. */
  function WindowAfter(keys: seq<string>): seq<string>
  {
    if keys == [] then [] else Slide(WindowAfter(keys[..|keys| - 1]), keys[|keys| - 1])
  }

  /** The window always holds exactly the last ten (or fewer) keys pressed,
      in order. */
  lemma {:induction false} WindowIsLastKeys(keys: seq<string>)
    ensures WindowAfter(keys) == LastKeys(keys)
    ensures |WindowAfter(keys)| <= WindowSize
  {
    if keys != [] {
      var init := keys[..|keys| - 1];
      WindowIsLastKeys(init);
      if |init| >= WindowSize {
        assert LastKeys(init)[1..] + [keys[|keys| - 1]] == keys[|keys| - WindowSize..];
      } else {
        assert init + [keys[|keys| - 1]] == keys;
      }
    }
  }

  predicate CommaFree(keys: seq<string>)
  {
    forall k :: 0 <= k < |keys| ==> ',' !in keys[k]
  }

  lemma KonamiJoinShape()
    ensures CommaFree(Konami) && Join(Konami, ",") != ""
  {
  }

  /** For keys without a comma, the joined comparison is exactly sequence
      equality with the Konami sequence. */
  lemma KonamiMatchIffEqual(window: seq<string>)
    requires CommaFree(window)
    ensures KonamiMatch(window) <==> window == Konami
  {
    KonamiJoinShape();
    if KonamiMatch(window) && window != [] {
      JoinThenSplit(window, ',');
      JoinThenSplit(Konami, ',');
    }
  }

  /** With fewer than ten keys pressed no match is possible. */
  lemma NoMatchBeforeTenKeys(keys: seq<string>)
    requires CommaFree(keys) && |keys| < WindowSize
    ensures !KonamiMatch(WindowAfter(keys))
  {
    WindowIsLastKeys(keys);
    KonamiMatchIffEqual(keys);
  }

  /** When the last ten keys spell the sequence the glow ends on, whatever
      it was; a match turns no toggle off, and no shortcut fires with it. */
  lemma KonamiTurnsGlowOn(s: EggState, key: string)
    requires Slide(s.window, key) == Konami
    ensures OnKey(s, key).toggles == s.toggles.(glow := true)
  {
    var w := Slide(s.window, key);
    assert key == w[|w| - 1] == "a";
    ShortcutFlipsOne(s.toggles, key);
  }

  /** The provider: the four state cells and the key window the effect
      closes over. `pressed` is the history of key names, for the proof. */
  class Provider {
    var showMatrix: bool
    var showParticles: bool
    var showGrid: bool
    var turboGlow: bool
    var buffer: seq<string>
    ghost var pressed: seq<string>

    function State(): EggState
      reads this
    {
      EggState(Toggles(showMatrix, showParticles, showGrid, turboGlow), buffer)
    }

    ghost predicate Valid()
      reads this
    {
      buffer == WindowAfter(pressed)
    }

    constructor ()
      ensures State() == InitialState() && pressed == [] && Valid()
    {
      showMatrix, showParticles, showGrid, turboGlow := true, true, true, false;
      buffer, pressed := [], [];
    }

    method ToggleMatrix()
      modifies this
      ensures State() == old(State()).(toggles := old(State()).toggles.(matrix := !old(showMatrix)))
      ensures pressed == old(pressed)
    {
      showMatrix := !showMatrix;
    }

    method ToggleParticles()
      modifies this
      ensures State() == old(State()).(toggles := old(State()).toggles.(particles := !old(showParticles)))
      ensures pressed == old(pressed)
    {
      showParticles := !showParticles;
    }

    method ToggleGrid()
      modifies this
      ensures State() == old(State()).(toggles := old(State()).toggles.(grid := !old(showGrid)))
      ensures pressed == old(pressed)
    {
      showGrid := !showGrid;
    }

    method ToggleGlow()
      modifies this
      ensures State() == old(State()).(toggles := old(State()).toggles.(glow := !old(turboGlow)))
      ensures pressed == old(pressed)
    {
      turboGlow := !turboGlow;
    }

    /** The four shortcut tests at the head of the handler. */
    method ApplyShortcut(key: string)
      modifies this
      ensures State() == old(State()).(toggles := Shortcut(old(State()).toggles, key))
      ensures pressed == old(pressed)
    {
      if key == "g" { ToggleGrid(); }
      if key == "p" { ToggleParticles(); }
      if key == "m" { ToggleMatrix(); }
      if key == "t" { ToggleGlow(); }
    }

    /** `push` then `shift`: the key enters the window. */
    method Remember(key: string)
      requires Valid()
      modifies this
      ensures State() == old(State()).(window := Slide(old(buffer), key))
      ensures pressed == old(pressed) + [key] && Valid()
      ensures |buffer| <= WindowSize && buffer == LastKeys(pressed)
    {
      buffer := Slide(buffer, key);
      pressed := pressed + [key];
      assert pressed[..|pressed| - 1] == old(pressed);
      WindowIsLastKeys(pressed);
    }

    /** The window `keydown` handler. */
    method Handler(key: string)
      requires Valid()
      modifies this
      ensures State() == OnKey(old(State()), key)
      ensures pressed == old(pressed) + [key] && Valid()
      ensures |buffer| <= WindowSize && buffer == LastKeys(pressed)
    {
      ApplyShortcut(key);
      Remember(key);
      if KonamiMatch(buffer) {
        turboGlow := true;
      }
    }
  }
}
