/**
 * The global animation clock: the blink iteration counter, the palette rotation and the
 * noise flag, which the control loop in `main` updates, one timer firing at a time.
 */
module AnimationClock {

  /** `maxIteration`: the counter runs through 0 .. MAX_ITERATION. */
  const MAX_ITERATION := 24

  /** The palettes `main` rotates through; their colour tables belong to ledsgo and are not modelled. */
  datatype Palette = Colors | BluePalette | LavaColors | CloudColors | ForestColors | HeatColors

  const PALETTES: seq<Palette> := [Colors, BluePalette, LavaColors, CloudColors, ForestColors, HeatColors]

  /** The clock's globals: `currentIteration`, `currentPalette`, `next` (local to `main`) and `USE_NOISE`. */
  datatype ClockState = ClockState(currentIteration: int, currentPalette: Palette, next: int, useNoise: bool)

  /** The three tickers of the control loop. */
  datatype Event = IterTick | PaletteTick | NoiseTick

  /** The state once `main` has set `currentPalette = palettes[0]` and `next := 1`. */
  const INITIAL := ClockState(0, PALETTES[0], 1, false)

  /**
   * What every reachable state satisfies: the counter is in range, `next` indexes the palette
   * list, and the current palette is the one just before `next`, cyclically.
   */
  ghost predicate Inv(s: ClockState)
  {
    0 <= s.currentIteration <= MAX_ITERATION &&
    0 <= s.next < |PALETTES| &&
    s.currentPalette == PALETTES[Previous(s.next)]
  }

  /** The palette index before n, cyclically. */
  function Previous(n: int): int
    requires 0 <= n < |PALETTES|
  {
    if n == 0 then |PALETTES| - 1 else n - 1
  }

  /** `incrementCurrentIteration` on the counter's value. */
  function NextIteration(i: int): int
  {
    if i + 1 > MAX_ITERATION then 0 else i + 1
  }

  /** The palette index after `next++` and the wrap at `len(palettes)`. */
  function NextPaletteIndex(n: int): int
  {
    if n + 1 >= |PALETTES| then 0 else n + 1
  }

  /**
   * One firing of one ticker. A palette tick reads `palettes[next]`, which the source only
   * does with `next` in range (otherwise it would panic).
   */
  function Step(s: ClockState, e: Event): (t: ClockState)
    requires e == PaletteTick ==> 0 <= s.next < |PALETTES|
    ensures Inv(s) ==> Inv(t)
  {
    match e
    case IterTick => s.(currentIteration := NextIteration(s.currentIteration))
    case PaletteTick => s.(currentPalette := PALETTES[s.next], next := NextPaletteIndex(s.next))
    case NoiseTick => s.(useNoise := !s.useNoise)
  }

  /** A sequence of firings, in the order the control loop serves them. */
  function Run(s: ClockState, events: seq<Event>): (t: ClockState)
    requires Inv(s)
    ensures Inv(t)
    decreases |events|
  {
    if events == [] then s else Run(Step(s, events[0]), events[1..])
  }

  lemma InitialIsValid()
    ensures Inv(INITIAL)
    ensures INITIAL.currentIteration == 0 && INITIAL.currentPalette == PALETTES[0] && !INITIAL.useNoise
  {
  }

  /** Firings of different tickers commute: the control loop's choice of order does not matter. */
  lemma TicksCommute(s: ClockState, e1: Event, e2: Event)
    requires Inv(s)
    ensures Step(Step(s, e1), e2) == Step(Step(s, e2), e1)
  {
  }

  /** Advancing a counter by one with wrap at m and then by j is advancing it by j + 1 modulo m. */
  lemma WrapShift(c: int, m: int, j: nat)
    requires m == MAX_ITERATION + 1 || m == |PALETTES|
    requires 0 <= c < m
    ensures ((if c + 1 >= m then 0 else c + 1) + j) % m == (c + 1 + j) % m
  {
    if m == MAX_ITERATION + 1 {
      assert (j + 25) % 25 == j % 25;
    } else {
      assert (j + 6) % 6 == j % 6;
    }
  }

  /** After k iteration ticks from a valid state the counter has advanced by k, cyclically. */
  lemma {:induction false} IterationTicks(s: ClockState, k: nat)
    requires Inv(s)
    ensures Run(s, seq(k, _ => IterTick)) ==
      s.(currentIteration := (s.currentIteration + k) % (MAX_ITERATION + 1))
    decreases k
  {
    var events := seq(k, _ => IterTick);
    if k > 0 {
      var t := Step(s, IterTick);
      assert events[1..] == seq(k - 1, _ => IterTick);
      IterationTicks(t, k - 1);
      WrapShift(s.currentIteration, MAX_ITERATION + 1, k - 1);
    }
  }

  /** The counter is cyclic: MAX_ITERATION + 1 iteration ticks lead back to the same state. */
  lemma {:induction false} IterationCycle(s: ClockState, k: nat)
    requires Inv(s) && k == MAX_ITERATION + 1
    ensures Run(s, seq(k, _ => IterTick)) == s
  {
    IterationTicks(s, k);
  }

  /** After k palette ticks from a valid state `next` has advanced by k, cyclically, and nothing else but the palette changed. */
  lemma {:induction false} PaletteTicks(s: ClockState, k: nat)
    requires Inv(s)
    ensures var t := Run(s, seq(k, _ => PaletteTick));
      t.next == (s.next + k) % |PALETTES| &&
      t.currentIteration == s.currentIteration && t.useNoise == s.useNoise
    decreases k
  {
    var events := seq(k, _ => PaletteTick);
    if k > 0 {
      var t := Step(s, PaletteTick);
      assert events[1..] == seq(k - 1, _ => PaletteTick);
      PaletteTicks(t, k - 1);
      WrapShift(s.next, |PALETTES|, k - 1);
    }
  }

  /** The palette rotation is cyclic: after `len(palettes)` firings both `next` and `currentPalette` are back. */
  lemma {:induction false} PaletteCycle(s: ClockState, k: nat)
    requires Inv(s) && k == |PALETTES|
    ensures Run(s, seq(k, _ => PaletteTick)) == s
  {
    var t := Run(s, seq(k, _ => PaletteTick));
    PaletteTicks(s, k);
    assert t.next == s.next by {
      assert (s.next + 6) % 6 == s.next;
    }
    assert t.currentPalette == PALETTES[Previous(s.next)];
  }

  /** Toggling the noise flag twice restores it. */
  lemma NoiseCycle(s: ClockState)
    requires Inv(s)
    ensures Run(s, [NoiseTick, NoiseTick]) == s
  {
    assert [NoiseTick, NoiseTick][1..] == [NoiseTick];
    assert [NoiseTick][1..] == [];
  }

  /** The clock's globals as one object; each method is one timer firing of the control loop. */
  class Clock {
    var currentIteration: int
    var currentPalette: Palette
    var next: int
    var useNoise: bool

    function State(): ClockState
      reads this
    {
      ClockState(currentIteration, currentPalette, next, useNoise)
    }

    ghost predicate Valid()
      reads this
    {
      Inv(State())
    }

    /** Package initialisation plus the first lines of `main`. */
    constructor ()
      ensures Valid() && State() == INITIAL
    {
      currentIteration := 0;
      useNoise := false;
      currentPalette := PALETTES[0];
      next := 1;
    }

    /** `incrementCurrentIteration`. */
    method IncrementCurrentIteration()
      modifies this`currentIteration
      ensures State() == Step(old(State()), IterTick)
      ensures old(currentIteration) == MAX_ITERATION ==> currentIteration == 0
      ensures 0 <= old(currentIteration) < MAX_ITERATION ==> currentIteration == old(currentIteration) + 1
    {
      currentIteration := currentIteration + 1;
      if currentIteration > MAX_ITERATION {
        currentIteration := 0;
      }
    }

    /** The palette ticker's case of the control loop. */
    method RotatePalette()
      requires 0 <= next < |PALETTES|
      modifies this`currentPalette, this`next
      ensures State() == Step(old(State()), PaletteTick)
      ensures currentPalette == PALETTES[old(next)] && 0 <= next < |PALETTES|
    {
      currentPalette := PALETTES[next];
      next := next + 1;
      if next >= |PALETTES| {
        next := 0;
      }
    }

    /** `toggleUseNoise`. */
    method ToggleUseNoise()
      modifies this`useNoise
      ensures State() == Step(old(State()), NoiseTick)
      ensures useNoise == !old(useNoise)
    {
      useNoise := !useNoise;
    }

    /** One pass of the control loop's `select`: serve whichever ticker fired. */
    method Tick(e: Event)
      requires Valid()
      modifies this
      ensures Valid() && State() == Step(old(State()), e)
    {
      match e
      case IterTick => IncrementCurrentIteration();
      case PaletteTick => RotatePalette();
      case NoiseTick => ToggleUseNoise();
    }
  }
}
