/**
 * Letters (segments of a column's LED strip) and columns, the per-tick colour decision of
 * `UpdateColors` and the column render `LettersColors`.
 */
module Letters {
  import opened Pixels
  import opened Frame
  import opened AnimationClock

  /** One entry of the static configuration: a `Letter` literal before it is linked to its column. */
  datatype LetterConfig = LetterConfig(
    identifier: string,
    color: Rgba,
    offset: int,
    count: int,
    sinceBlink: int,
    waitTimeMs: nat)

  /** The palette entry `uint16(rand.Uint32() >> 8)`: bits 8 to 23 of the draw. */
  function ColorId(draw: Uint32): (id: Uint16)
    ensures draw == (draw / 0x100_0000) * 0x100_0000 + id * 0x100 + draw % 0x100
  {
    (draw / 0x100) % 0x1_0000
  }

  /**
   * The colour a letter stores on a tick: the palette colour it drew (`drawn`, already
   * alpha-scaled), overridden by BLACK when the clock's counter equals its blink threshold.
   */
  function TickColor(sinceBlink: int, currentIteration: int, drawn: Rgba): Rgba
  {
    if sinceBlink == currentIteration then BLACK else drawn
  }

  /**
   * A letter turns black exactly on its blink tick, provided the palette did not itself
   * draw black (two of the palettes contain black entries).
   */
  lemma BlackExactlyOnBlink(sinceBlink: int, currentIteration: int, drawn: Rgba)
    requires drawn != BLACK
    ensures TickColor(sinceBlink, currentIteration, drawn) == BLACK <==> sinceBlink == currentIteration
  {
  }

  /** Off its blink tick a letter shows whatever the palette drew, black included. */
  lemma PaletteColorOffBlink(sinceBlink: int, currentIteration: int, drawn: Rgba)
    requires sinceBlink != currentIteration
    ensures TickColor(sinceBlink, currentIteration, drawn) == drawn
  {
  }

  class Letter {
    const identifier: string
    var color: Rgba
    const offset: int
    const count: int
    const sinceBlink: int
    const waitTimeMs: nat
    /** The column the letter belongs to, set once when the column is built. */
    const column: Column

    constructor (cfg: LetterConfig, column: Column)
      ensures Config() == cfg && this.column == column
    {
      identifier := cfg.identifier;
      color := cfg.color;
      offset := cfg.offset;
      count := cfg.count;
      sinceBlink := cfg.sinceBlink;
      waitTimeMs := cfg.waitTimeMs;
      this.column := column;
    }

    function Config(): LetterConfig
      reads this
    {
      LetterConfig(identifier, color, offset, count, sinceBlink, waitTimeMs)
    }

    function AsExtent(): Extent
      reads this
    {
      Extent(offset, count, color)
    }

    /**
     * One firing of the letter's ticker: draw a palette colour, store the tick colour, then
     * render the letter's column and return the frame handed to the column's device.
     * `draw` is the value `rand.Uint32()` returned, `paletteColor(p, id)` the alpha-scaled
     * entry `id` of palette `p`, and `noise` the noise colour source.
     */
    method UpdateColors(clock: Clock, draw: Uint32, paletteColor: (Palette, Uint16) -> Rgba, noise: nat -> nat -> Rgba)
      returns (frame: seq<Rgba>)
      modifies this`color
      ensures color == TickColor(sinceBlink, clock.currentIteration, paletteColor(clock.currentPalette, ColorId(draw)))
      ensures forall l :: l in column.letters && l != this ==> l.color == old(l.color)
      ensures frame == Render(Extents(column.letters), clock.useNoise, noise)
    {
      var colorId := ColorId(draw);
      var rgba := paletteColor(clock.currentPalette, colorId);
      if sinceBlink == clock.currentIteration {
        rgba := BLACK;
      }
      color := rgba;
      frame := LettersColors(column.letters, clock.useNoise, noise);
    }
  }

  /** A column: its letters in frame order. The output device is not part of the model. */
  class Column {
    var letters: seq<Letter>

    /** The part of `InitLetters` that builds one column: one fresh letter per entry, each linked back. */
    constructor (configs: seq<LetterConfig>)
      ensures |letters| == |configs|
      ensures forall k :: 0 <= k < |letters| ==>
        fresh(letters[k]) && letters[k].column == this && letters[k].Config() == configs[k]
      ensures forall j, k :: 0 <= j < k < |letters| ==> letters[j] != letters[k]
    {
      letters := [];
      new;
      var k := 0;
      while k < |configs|
        invariant 0 <= k <= |configs| && |letters| == k
        invariant forall j :: 0 <= j < k ==>
          fresh(letters[j]) && letters[j].column == this && letters[j].Config() == configs[j]
        invariant forall i, j :: 0 <= i < j < k ==> letters[i] != letters[j]
      {
        var l := new Letter(configs[k], this);
        letters := letters + [l];
        k := k + 1;
      }
    }
  }

  /** The extents the frame builder reads off a column's letters, in order. */
  function Extents(lets: seq<Letter>): seq<Extent>
    reads set l | l in lets
  {
    seq(|lets|, k requires 0 <= k < |lets| reads set l | l in lets => lets[k].AsExtent())
  }

  /** `LettersColors`: thread the buffer through `SetLeds`, one letter after the other. */
  method LettersColors(lets: seq<Letter>, useNoise: bool, noise: nat -> nat -> Rgba) returns (arr: seq<Rgba>)
    ensures arr == Render(Extents(lets), useNoise, noise)
  {
    arr := [];
    var k := 0;
    while k < |lets|
      invariant 0 <= k <= |lets|
      invariant arr == Render(Extents(lets)[..k], useNoise, noise)
    {
      var let := lets[k];
      arr := SetLeds(arr, let.offset, let.count, let.color, useNoise, noise(k));
      assert Extents(lets)[..k + 1][..k] == Extents(lets)[..k];
      k := k + 1;
    }
    assert Extents(lets)[..|lets|] == Extents(lets);
  }
}
