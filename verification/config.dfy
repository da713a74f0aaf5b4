/**
 * The compiled-in configuration `allTheLetters`: four columns of two letters each, keyed
 * by the pin that drives the column, and what the frame builder makes of them.
 */
module Config {
  import opened Pixels
  import opened Frame
  import opened AnimationClock
  import opened Letters

  /** The pins the columns are wired to. */
  datatype Pin = GP0 | GP2 | GP4 | GP6

  const ALL_THE_LETTERS: map<Pin, seq<LetterConfig>> := map[
    GP0 := [
      LetterConfig("G", BLACK, 0, 14, 1, 250),
      LetterConfig("C", BLACK, 14, 14, 5, 255)],
    GP2 := [
      LetterConfig("L", BLACK, 0, 8, 2, 240),
      LetterConfig("H", BLACK, 8, 13, 6, 245)],
    GP4 := [
      LetterConfig("O", BLACK, 0, 14, 3, 230),
      LetterConfig("I", BLACK, 14, 10, 7, 235)],
    GP6 := [
      LetterConfig("W", BLACK, 0, 14, 4, 260),
      LetterConfig("C2", BLACK, 14, 11, 8, 265)]]

  /** Letters laid end to end from LED 0, none with a negative count. */
  predicate Contiguous(cfgs: seq<LetterConfig>)
  {
    (|cfgs| > 0 ==> cfgs[0].offset == 0) &&
    (forall k :: 0 <= k < |cfgs| ==> 0 <= cfgs[k].count) &&
    (forall k :: 0 < k < |cfgs| ==> cfgs[k].offset == cfgs[k - 1].offset + cfgs[k - 1].count)
  }

  /** Every blink threshold is a value the iteration counter reaches. */
  predicate BlinksInRange(cfgs: seq<LetterConfig>)
  {
    forall k :: 0 <= k < |cfgs| ==> 0 <= cfgs[k].sinceBlink <= MAX_ITERATION
  }

  /** The number of LEDs a column's letters span. */
  function Length(cfgs: seq<LetterConfig>): int
  {
    if cfgs == [] then 0 else cfgs[|cfgs| - 1].offset + cfgs[|cfgs| - 1].count
  }

  /**
   * The extents the frame builder sees once each letter has taken its tick colour at
   * counter value `iteration`, letter k having drawn `drawn[k]`.
   */
  function TickExtents(cfgs: seq<LetterConfig>, iteration: int, drawn: seq<Rgba>): seq<Extent>
    requires |drawn| == |cfgs|
  {
    seq(|cfgs|, k requires 0 <= k < |cfgs| =>
      Extent(cfgs[k].offset, cfgs[k].count, TickColor(cfgs[k].sinceBlink, iteration, drawn[k])))
  }

  /** Every column of the configuration is contiguous from LED 0 and blinks on reachable counter values. */
  lemma ConfigIsWellFormed()
    ensures forall p :: p in ALL_THE_LETTERS ==>
      Contiguous(ALL_THE_LETTERS[p]) && BlinksInRange(ALL_THE_LETTERS[p])
    ensures Length(ALL_THE_LETTERS[GP0]) == 28 && Length(ALL_THE_LETTERS[GP2]) == 21
    ensures Length(ALL_THE_LETTERS[GP4]) == 24 && Length(ALL_THE_LETTERS[GP6]) == 25
  {
  }

  /** Contiguous letters, whatever colours they carry, are laid out in order. */
  lemma {:induction false} ContiguousIsOrdered(cfgs: seq<LetterConfig>, iteration: int, drawn: seq<Rgba>)
    requires |drawn| == |cfgs| && Contiguous(cfgs)
    ensures Ordered(TickExtents(cfgs, iteration, drawn))
    ensures |cfgs| > 0 ==> End(TickExtents(cfgs, iteration, drawn)[|cfgs| - 1]) == Length(cfgs)
  {
    var exts := TickExtents(cfgs, iteration, drawn);
    forall k | 0 < k < |exts|
      ensures 0 <= exts[k].offset
    {
      OffsetsGrow(cfgs, 0, k);
    }
    forall j, k | 0 <= j < k < |exts|
      ensures End(exts[j]) <= exts[k].offset
    {
      OffsetsGrow(cfgs, j, k);
    }
  }

  lemma {:induction false} OffsetsGrow(cfgs: seq<LetterConfig>, j: nat, k: nat)
    requires Contiguous(cfgs) && j < k < |cfgs|
    ensures cfgs[j].offset + cfgs[j].count <= cfgs[k].offset
    decreases k - j
  {
    if j + 1 < k {
      OffsetsGrow(cfgs, j + 1, k);
    }
  }

  /**
   * Rendering a contiguous column after a tick without noise: the frame spans exactly the
   * letters, and an LED of letter k is BLACK exactly when k blinks on this tick (its drawn
   * colour not being black).
   */
  lemma BlinkLayout(cfgs: seq<LetterConfig>, iteration: int, drawn: seq<Rgba>, noise: nat -> nat -> Rgba, k: nat, i: nat)
    requires |drawn| == |cfgs| && Contiguous(cfgs)
    requires k < |cfgs| && drawn[k] != BLACK
    requires cfgs[k].offset <= i < cfgs[k].offset + cfgs[k].count
    ensures |Render(TickExtents(cfgs, iteration, drawn), false, noise)| == Length(cfgs) > i
    ensures Render(TickExtents(cfgs, iteration, drawn), false, noise)[i] == BLACK <==> cfgs[k].sinceBlink == iteration
  {
    var exts := TickExtents(cfgs, iteration, drawn);
    ContiguousIsOrdered(cfgs, iteration, drawn);
    RenderLength(exts, false, noise);
    assert Inside(exts[k], i);
    RenderCovers(exts, false, noise, k, i);
    BlackExactlyOnBlink(cfgs[k].sinceBlink, iteration, drawn[k]);
  }

  /**
   * The column on GP0, letters G (LEDs 0-13, blinks at 1) and C (LEDs 14-27, blinks at 5):
   * G is black exactly at iteration 1, C exactly at iteration 5, and both show their
   * palette colour on every other tick.
   */
  lemma GP0BlinkScenario(iteration: int, drawnG: Rgba, drawnC: Rgba, noise: nat -> nat -> Rgba)
    requires drawnG != BLACK && drawnC != BLACK
    ensures var frame := Render(TickExtents(ALL_THE_LETTERS[GP0], iteration, [drawnG, drawnC]), false, noise);
      |frame| == 28 &&
      (forall i :: 0 <= i < 14 ==> (frame[i] == BLACK <==> iteration == 1)) &&
      (forall i :: 14 <= i < 28 ==> (frame[i] == BLACK <==> iteration == 5))
  {
    var cfgs := ALL_THE_LETTERS[GP0];
    ConfigIsWellFormed();
    forall i | 0 <= i < 28
      ensures Render(TickExtents(cfgs, iteration, [drawnG, drawnC]), false, noise)[i] == BLACK
        <==> iteration == (if i < 14 then 1 else 5)
    {
      BlinkLayout(cfgs, iteration, [drawnG, drawnC], noise, if i < 14 then 0 else 1, i);
    }
    if cfgs != [] {
      BlinkLayout(cfgs, iteration, [drawnG, drawnC], noise, 0, 0);
    }
  }

  /**
   * With noise colouring on, the frame shows the noise colours even on a letter's blink
   * tick: the black override of `UpdateColors` never reaches the LEDs.
   */
  lemma NoiseHidesBlink(cfgs: seq<LetterConfig>, drawn: seq<Rgba>, noise: nat -> nat -> Rgba, k: nat, i: nat)
    requires |drawn| == |cfgs| && Contiguous(cfgs)
    requires k < |cfgs| && cfgs[k].offset <= i < cfgs[k].offset + cfgs[k].count
    requires forall m: nat, j: nat :: noise(m)(j) != BLACK
    ensures var frame := Render(TickExtents(cfgs, cfgs[k].sinceBlink, drawn), true, noise);
      i < |frame| && frame[i] == noise(k)(i - cfgs[k].offset) && frame[i] != BLACK
  {
    var exts := TickExtents(cfgs, cfgs[k].sinceBlink, drawn);
    ContiguousIsOrdered(cfgs, cfgs[k].sinceBlink, drawn);
    assert Inside(exts[k], i);
    RenderCovers(exts, true, noise, k, i);
  }

  /**
   * With the noise branch keeping a stored BLACK, a letter blinks in both colouring modes:
   * an LED of letter k is BLACK exactly on k's blink tick, when neither its drawn colour
   * nor its noise colours are black.
   */
  lemma BlinkShowsInEveryMode(cfgs: seq<LetterConfig>, iteration: int, drawn: seq<Rgba>, useNoise: bool,
                              noise: nat -> nat -> Rgba, k: nat, i: nat)
    requires |drawn| == |cfgs| && Contiguous(cfgs)
    requires k < |cfgs| && cfgs[k].offset <= i < cfgs[k].offset + cfgs[k].count
    requires drawn[k] != BLACK
    requires forall j: nat :: noise(k)(j) != BLACK
    ensures var frame := RenderKeepingBlack(TickExtents(cfgs, iteration, drawn), useNoise, noise);
      i < |frame| && (frame[i] == BLACK <==> cfgs[k].sinceBlink == iteration)
  {
    var exts := TickExtents(cfgs, iteration, drawn);
    ContiguousIsOrdered(cfgs, iteration, drawn);
    assert Inside(exts[k], i);
    RenderKeepingBlackCovers(exts, useNoise, noise, k, i);
    BlackExactlyOnBlink(cfgs[k].sinceBlink, iteration, drawn[k]);
  }
}
