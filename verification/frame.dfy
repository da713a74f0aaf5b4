/**
 * The frame builder: `SetLeds` appends one letter's pixels to a column's LED buffer,
 * `Render` folds it over a column's letters in their stored order (what `LettersColors`
 * computes), and the lemmas below say where every letter's pixels end up.
 */
module Frame {
  import opened Pixels

  /** What the frame builder reads of a letter: first LED, number of LEDs, colour. */
  datatype Extent = Extent(offset: int, count: int, color: Rgba)

  function End(e: Extent): int
  {
    e.offset + e.count
  }

  predicate Inside(e: Extent, i: int)
  {
    e.offset <= i < End(e)
  }

  function Max(x: int, y: int): int
  {
    if x < y then y else x
  }

  /**
   * Colour of the i-th pixel `SetLeds` appends: the letter's colour, or, while noise
   * colouring is on, whatever the noise colour source yields for pixel i.
   */
  function PixelAt(useNoise: bool, noise: nat -> Rgba, c: Rgba, i: nat): Rgba
  {
    if useNoise then noise(i) else c
  }

  /**
   * The buffer `SetLeds(arr, e.offset, e.count, e.color)` returns. Nothing of `arr` is
   * overwritten: a gap up to `e.offset` is padded with OFF, and the letter's pixels go
   * after the padding, or straight after `arr` when `e.offset < |arr|`.
   */
  function AppendLeds(arr: seq<Rgba>, e: Extent, useNoise: bool, noise: nat -> Rgba): (r: seq<Rgba>)
    ensures |r| == Max(|arr|, e.offset) + Max(e.count, 0)
    ensures r[..|arr|] == arr
    ensures forall i :: |arr| <= i < e.offset ==> r[i] == OFF
    ensures forall i: nat :: i < e.count ==> r[Max(|arr|, e.offset) + i] == PixelAt(useNoise, noise, e.color, i)
  {
    arr + seq(Max(e.offset - |arr|, 0), _ => OFF) + seq(Max(e.count, 0), i requires 0 <= i => PixelAt(useNoise, noise, e.color, i))
  }

  /** `SetLeds`: two append loops, the padding and the letter's pixels. */
  method SetLeds(arr: seq<Rgba>, offset: int, count: int, ledColor: Rgba, useNoise: bool, noise: nat -> Rgba)
    returns (r: seq<Rgba>)
    ensures r == AppendLeds(arr, Extent(offset, count, ledColor), useNoise, noise)
  {
    r := arr;
    if offset > |r| {
      var i := |r|;
      while i < offset
        invariant |arr| <= i <= offset
        invariant r == arr + seq(i - |arr|, _ => OFF)
      {
        r := r + [OFF];
        i := i + 1;
      }
    }
    ghost var padded := r;
    var i := 0;
    while i < count
      invariant 0 <= i <= Max(count, 0)
      invariant r == padded + seq(i, j requires 0 <= j => PixelAt(useNoise, noise, ledColor, j))
    {
      var c := ledColor;
      if useNoise {
        c := noise(i);
      }
      r := r + [c];
      i := i + 1;
    }
  }

  /**
   * The frame of a column whose letters, in stored order, have extents `exts`:
   * letter k is appended with its own noise source `noise(k)`. Whatever the letters'
   * layout, the frame reaches every letter's end.
   */
  function Render(exts: seq<Extent>, useNoise: bool, noise: nat -> nat -> Rgba): (r: seq<Rgba>)
    ensures |r| >= MaxEnd(exts)
  {
    if exts == [] then []
    else
      var n := |exts| - 1;
      AppendLeds(Render(exts[..n], useNoise, noise), exts[n], useNoise, noise(n))
  }

  /** The largest `Offset + Count` over the letters, and 0 for none. */
  function MaxEnd(exts: seq<Extent>): int
  {
    if exts == [] then 0 else Max(MaxEnd(exts[..|exts| - 1]), End(exts[|exts| - 1]))
  }

  /** Letters laid out in order: each starts at or after the previous one's end, none has a negative extent. */
  predicate Ordered(exts: seq<Extent>)
  {
    (forall k :: 0 <= k < |exts| ==> 0 <= exts[k].offset && 0 <= exts[k].count) &&
    (forall j, k :: 0 <= j < k < |exts| ==> End(exts[j]) <= exts[k].offset)
  }

  lemma OrderedPrefix(exts: seq<Extent>, n: nat)
    requires Ordered(exts) && n <= |exts|
    ensures Ordered(exts[..n])
  {
  }

  /** For ordered letters the frame is exactly as long as the furthest end, which is the last letter's. */
  lemma {:induction false} RenderLength(exts: seq<Extent>, useNoise: bool, noise: nat -> nat -> Rgba)
    requires Ordered(exts)
    ensures |Render(exts, useNoise, noise)| == MaxEnd(exts)
    ensures exts != [] ==> MaxEnd(exts) == End(exts[|exts| - 1])
  {
    if exts != [] {
      var n := |exts| - 1;
      OrderedPrefix(exts, n);
      RenderLength(exts[..n], useNoise, noise);
    }
  }

  /** For ordered letters, every LED inside a letter's extent shows that letter's pixel. */
  lemma {:induction false} RenderCovers(exts: seq<Extent>, useNoise: bool, noise: nat -> nat -> Rgba, k: nat, i: int)
    requires Ordered(exts)
    requires k < |exts| && Inside(exts[k], i)
    ensures i < |Render(exts, useNoise, noise)|
    ensures Render(exts, useNoise, noise)[i] == PixelAt(useNoise, noise(k), exts[k].color, i - exts[k].offset)
  {
    var n := |exts| - 1;
    var prev := exts[..n];
    OrderedPrefix(exts, n);
    RenderLength(prev, useNoise, noise);
    RenderLength(exts, useNoise, noise);
    var before := Render(prev, useNoise, noise);
    assert |before| <= exts[n].offset by {
      if n > 0 {
        assert |before| == End(exts[n - 1]);
      }
    }
    if k < n {
      RenderCovers(prev, useNoise, noise, k, i);
      assert i < |before|;
      assert Render(exts, useNoise, noise)[..|before|] == before;
      assert Render(exts, useNoise, noise)[i] == Render(exts, useNoise, noise)[..|before|][i];
    } else {
      var j: nat := i - exts[n].offset;
      assert Max(|before|, exts[n].offset) + j == i;
    }
  }

  /** For ordered letters, every LED of the frame outside all extents is OFF. */
  lemma {:induction false} RenderGaps(exts: seq<Extent>, useNoise: bool, noise: nat -> nat -> Rgba, i: nat)
    requires Ordered(exts)
    requires i < |Render(exts, useNoise, noise)|
    requires forall k :: 0 <= k < |exts| ==> !Inside(exts[k], i)
    ensures Render(exts, useNoise, noise)[i] == OFF
  {
    var n := |exts| - 1;
    var prev := exts[..n];
    OrderedPrefix(exts, n);
    RenderLength(prev, useNoise, noise);
    RenderLength(exts, useNoise, noise);
    var before := Render(prev, useNoise, noise);
    if i < |before| {
      RenderGaps(prev, useNoise, noise, i);
      assert Render(exts, useNoise, noise)[..|before|] == before;
      assert Render(exts, useNoise, noise)[i] == Render(exts, useNoise, noise)[..|before|][i];
    } else {
      assert !Inside(exts[n], i);
    }
  }

  /**
   * Overlap is not detected: a letter whose offset lies inside the buffer built so far
   * is shifted to the buffer's end, and the earlier letter keeps the shared LEDs.
   */
  lemma OverlapIsShifted(a: Rgba, b: Rgba, noise: nat -> nat -> Rgba)
    requires a != b
    ensures var frame := Render([Extent(0, 14, a), Extent(10, 4, b)], false, noise);
      |frame| == 18 && frame[10] == a && frame[14] == b && frame[17] == b
  {
    assert [Extent(0, 14, a), Extent(10, 4, b)][..1] == [Extent(0, 14, a)];
    assert [Extent(0, 14, a)][..0] == [];
    assert Render([Extent(0, 14, a)][..0], false, noise) == [];
    var first := Render([Extent(0, 14, a)], false, noise);
    assert first == AppendLeds([], Extent(0, 14, a), false, noise(0));
    assert first[0 + 10] == PixelAt(false, noise(0), a, 10);
    var frame := Render([Extent(0, 14, a), Extent(10, 4, b)], false, noise);
    assert frame == AppendLeds(first, Extent(10, 4, b), false, noise(1));
    assert frame[..14] == first;
    assert frame[10] == first[10];
    assert frame[14 + 0] == PixelAt(false, noise(1), b, 0);
    assert frame[14 + 3] == PixelAt(false, noise(1), b, 3);
  }

  /**
   * The pixel rule of a noise branch that keeps a letter's stored BLACK (its blink tick)
   * and takes the noise colour only for letters that are not black.
   */
  function KeptBlackPixelAt(useNoise: bool, noise: nat -> Rgba, c: Rgba, i: nat): Rgba
  {
    if useNoise && c != BLACK then noise(i) else c
  }

  /** The column frame built with `KeptBlackPixelAt` in place of `PixelAt`. */
  function RenderKeepingBlack(exts: seq<Extent>, useNoise: bool, noise: nat -> nat -> Rgba): seq<Rgba>
  {
    Render(exts, useNoise, (k: nat) => (i: nat) => if k < |exts| && exts[k].color == BLACK then BLACK else noise(k)(i))
  }

  /** For ordered letters, every LED inside letter k's extent follows `KeptBlackPixelAt`. */
  lemma RenderKeepingBlackCovers(exts: seq<Extent>, useNoise: bool, noise: nat -> nat -> Rgba, k: nat, i: int)
    requires Ordered(exts)
    requires k < |exts| && Inside(exts[k], i)
    ensures i < |RenderKeepingBlack(exts, useNoise, noise)|
    ensures RenderKeepingBlack(exts, useNoise, noise)[i] == KeptBlackPixelAt(useNoise, noise(k), exts[k].color, i - exts[k].offset)
  {
    var kept := (k: nat) => (i: nat) => if k < |exts| && exts[k].color == BLACK then BLACK else noise(k)(i);
    RenderCovers(exts, useNoise, kept, k, i);
  }
}
