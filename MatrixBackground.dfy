/** The matrix rain: one drop counter per 14-pixel column, advanced once per
    80 ms frame; a drop below the bottom edge restarts at the top with
    probability 0.025. Random draws and the frame time are parameters. */
module MatrixBackground {
  import opened Random

  const Glyphs := "ABCDEFGHIJKLMNOPQRSTUVWXYZ0123456789@#$%^&*()"

  const FontSize := 14

  /** The minimum interval between frames, in milliseconds. */
  const StepMs: real := 80.0

  /** Above this draw a drop past the bottom restarts. */
  const ResetAbove: real := 0.975

  predicate AllUnit(rs: seq<real>)
  {
    forall k :: 0 <= k < |rs| ==> Unit(rs[k])
  }

  /** `Math.floor(width / fontSize)` for a canvas width. */
  function Columns(width: nat): (n: nat)
    ensures n * FontSize <= width < (n + 1) * FontSize
  {
    width / FontSize
  }

  /** The glyph index `Math.floor(r * chars.length)` lies inside the glyph
      set. */
  function GlyphIndex(r: real): (i: int)
    requires Unit(r)
    ensures 0 <= i < |Glyphs|
  {
    (r * |Glyphs| as real).Floor
  }

  /** One column of the frame: a drop past the bottom is set to 0 when the
      draw exceeds 0.975; then every drop is incremented. */
  function Advance(drop: int, r: real, height: int): int
  {
    (if drop * FontSize > height && r > ResetAbove then 0 else drop) + 1
  }

  function AdvanceAll(drops: seq<int>, rs: seq<real>, height: int): (r: seq<int>)
    requires |rs| == |drops|
    ensures |r| == |drops|
    ensures forall i :: 0 <= i < |drops| ==> r[i] == Advance(drops[i], rs[i], height)
  {
    if drops == [] then [] else [Advance(drops[0], rs[0], height)] + AdvanceAll(drops[1..], rs[1..], height)
  }

  /** A drop still on the canvas moves down one row; one past the bottom
      restarts at row 1 or moves down, as the draw decides. */
  lemma AdvanceCases(drop: int, r: real, height: int)
    ensures drop * FontSize <= height ==> Advance(drop, r, height) == drop + 1
    ensures drop * FontSize > height && r > ResetAbove ==> Advance(drop, r, height) == 1
    ensures drop * FontSize > height && r <= ResetAbove ==> Advance(drop, r, height) == drop + 1
  {
  }

  predicate AllPositive(drops: seq<int>)
  {
    forall k :: 0 <= k < |drops| ==> drops[k] >= 1
  }

  /** Every drop stays at least 1. */
  lemma AdvanceKeepsPositive(drops: seq<int>, rs: seq<real>, height: int)
    requires |rs| == |drops| && AllPositive(drops)
    ensures AllPositive(AdvanceAll(drops, rs, height))
  {
  }

  /** The tail of the column loop: a drop past the bottom restarts when
      the draw says so, then the drop moves down one row. */
  method Fall(a: array<int>, i: nat, r: real, height: int)
    requires i < a.Length
    modifies a
    ensures a[i] == Advance(old(a[i]), r, height)
    ensures forall k :: 0 <= k < a.Length && k != i ==> a[k] == old(a[k])
  {
    if a[i] * FontSize > height && r > ResetAbove {
      a[i] := 0;
    }
    a[i] := a[i] + 1;
  }

  /** The effect's state: the drop array, the time of the last frame and
      the canvas size. */
  class Rain {
    var drops: array<int>
    var last: real
    var width: nat
    var height: nat

    predicate Valid()
      reads this, drops
    {
      AllPositive(drops[..])
    }

    /** The set-up: one drop per column, each starting at row 1. */
    constructor (width: nat, height: nat)
      ensures drops.Length == Columns(width)
      ensures forall i :: 0 <= i < drops.Length ==> drops[i] == 1
      ensures last == 0.0 && this.width == width && this.height == height
      ensures fresh(drops) && Valid()
    {
      var columns := width / FontSize;
      var a := new int[columns];
      for i := 0 to columns
        invariant forall k :: 0 <= k < i ==> a[k] == 1
      {
        a[i] := 1;
      }
      drops := a;
      last := 0.0;
      this.width, this.height := width, height;
    }

    /** `handleResize`: the canvas changes size, the drops do not. */
    method Resize(w: nat, h: nat)
      modifies this
      ensures width == w && height == h
      ensures drops == old(drops) && drops[..] == old(drops[..]) && last == old(last)
    {
      width, height := w, h;
    }

    /** The update half of `draw` at time `now`. `glyphDraws` and
        `resetDraws` hold each column's two random draws; the indices of
        the glyphs drawn come back in column order. */
    method Draw(now: real, glyphDraws: seq<real>, resetDraws: seq<real>) returns (glyphs: seq<int>)
      requires Valid() && |glyphDraws| == |resetDraws| == drops.Length
      requires AllUnit(glyphDraws)
      modifies drops, this
      ensures drops == old(drops) && width == old(width) && height == old(height)
      ensures now - old(last) < StepMs ==> drops[..] == old(drops[..]) && last == old(last) && glyphs == []
      ensures now - old(last) >= StepMs ==>
                drops[..] == AdvanceAll(old(drops[..]), resetDraws, height) && last == now
                && |glyphs| == drops.Length
                && forall i :: 0 <= i < |glyphs| ==> glyphs[i] == GlyphIndex(glyphDraws[i])
      ensures Valid()
    {
      glyphs := [];
      if now - last < StepMs {
        return;
      }
      last := now;
      var a := drops;
      ghost var before := a[..];
      AdvanceKeepsPositive(before, resetDraws, height);
      for i := 0 to a.Length
        modifies a
        invariant forall k :: 0 <= k < i ==> a[k] == Advance(before[k], resetDraws[k], height)
        invariant forall k :: i <= k < a.Length ==> a[k] == before[k]
        invariant |glyphs| == i
        invariant forall k :: 0 <= k < i ==> glyphs[k] == GlyphIndex(glyphDraws[k])
      {
        glyphs := glyphs + [GlyphIndex(glyphDraws[i])];
        Fall(a, i, resetDraws[i], height);
      }
      assert a[..] == AdvanceAll(before, resetDraws, height);
    }
  }
}
