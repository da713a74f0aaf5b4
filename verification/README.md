# GlowChics animation core in Dafny

GlowChics drives WS2812 LED strips from a microcontroller. Each strip is a *column*, and each
column is split into *letters*. A letter is a run of LEDs given by an `Offset` and a `Count`.
Each letter has its own ticker. On every tick the letter does three things:

- it draws a colour from the current palette;
- it turns black instead when the global iteration counter equals its blink threshold
  (`SinceBlink`);
- it re-renders its whole column into one LED buffer and writes that buffer to the strip.

One control loop owns three more tickers:

- the iteration counter (0 .. 24, wrapping);
- the palette rotation;
- the noise-colouring flag.

This project models that logic in `main.go`, one tick at a time:

- `pixels.dfy` (`Pixels`): Go's `uint8` and `color.RGBA`. It also holds the padding pixel
  `OFF` and `BLACK`.
- `frame.dfy` (`Frame`): `SetLeds` is a method with two append loops. It is proved equal to
  `AppendLeds`, whose contract gives the exact length and contents of the buffer. `Render`
  folds `AppendLeds` over a column's letters. The lemmas say where every letter's pixels land,
  and that gaps are `OFF`.
- `clock.dfy` (`AnimationClock`): the clock's globals as a `Clock` class. Its step methods are
  proved against a value-level state machine (`Step`, `Run`). The invariant `Inv` is kept by
  every step, and the lemmas prove that each of the three cycles returns to its start.
- `letters.dfy` (`Letters`): the `Letter` and `Column` classes. It holds `LettersColors` (a
  loop over the letters calling `SetLeds`) and `Letter.UpdateColors` (the blink override, then
  the column render).
- `random_byte.dfy` (`RandomByte`): `getRand`.
- `config.dfy` (`Config`): the `allTheLetters` table. The lemmas prove it well formed, and
  they prove the frames it yields on a tick, with and without noise.

Calls into code outside `main.go` are parameters of the model:

- `draw`: the value `rand.Uint32()` returns in `UpdateColors`. The model computes the palette
  entry `uint16(draw >> 8)` from it itself (`Letters.ColorId`).
- `paletteColor(p, id)`: entry `id` of palette `p`, alpha-scaled, i.e.
  `ApplyAlpha(p.ColorAt(id), ALPHA)`. `UpdateColors` applies it to the clock's
  `currentPalette`. The value-level lemmas call its result `drawn`.
- `noise(k)(i)`: the colour `SetLeds` gives pixel `i` of letter `k` while `USE_NOISE` is on.
  It stands for `ApplyAlpha(Color{Noise2(time.Now()…, i), 0xff, 0xff}.Spectrum(), ALPHA)`.
- `n`: the value `rand.Int()` returns inside `getRand`.

`USE_NOISE` is passed to the frame builder as `useNoise`, and `UpdateColors` takes it from the
`Clock`.

A letter is meant to render black on its blink tick whatever the colouring mode, but the code
does not do this. In `main.go` (lines 103-110), `SetLeds` replaces every pixel by the noise
colour while `USE_NOISE` is on and ignores the letter's stored colour. So the blink override
never reaches the LEDs in noise mode. `SetLeds`, `LettersColors` and `UpdateColors` model
the code as written, and `Config.NoiseHidesBlink` proves this. The corrected noise branch
keeps a stored `BLACK` (`Frame.KeptBlackPixelAt`, `Frame.RenderKeepingBlack`), and
`Config.BlinkShowsInEveryMode` proves the intended property about it (see "## Findings"). Also, two palettes contain `Black` entries, so a letter
can show black off its blink tick. "Black exactly on the blink tick" therefore holds only when
the drawn colour is not black (`Letters.BlackExactlyOnBlink`).

## Model

| member | source | states |
|---|---|---|
| `Pixels.ToUint8` | main.go:161-163 | Go's `uint8(x)`: the result agrees with `x` modulo 256 and is `x` itself when `x` fits in a byte |
| `Frame.AppendLeds` | main.go:97-112 | the buffer has length `max(len(arr), offset) + max(count, 0)`; `arr` is an unchanged prefix; LEDs in `[len(arr), offset)` are `RGBA{0,0,0,0}`; the `count` appended pixels start at `max(len(arr), offset)` (so nothing is written at `offset` when `offset < len(arr)`) and are `ledColor` when noise is off, the noise colour when it is on |
| `Frame.SetLeds` | main.go:97-112 | the padding loop and the colour loop build exactly the buffer `AppendLeds` describes |
| `Frame.Render` | main.go:89-95 | the column frame is the buffer threaded through `SetLeds` letter by letter; whatever the letters' layout, it is at least as long as the largest `Offset + Count` |
| `Frame.RenderLength` | main.go:89-95 | for letters in order (each at or after the previous end), the frame's length is exactly the largest `Offset + Count`, which is the last letter's end |
| `Frame.RenderCovers` | main.go:89-112 | for letters in order, every LED in `[Offset, Offset+Count)` of letter k shows letter k's pixel (its `Color` when noise is off) |
| `Frame.RenderGaps` | main.go:89-112 | for letters in order, every LED of the frame that lies in no letter's extent is all-zero |
| `Frame.RenderKeepingBlackCovers` | main.go:103-110 | under the corrected noise branch, for letters in order, every LED of letter k shows `BLACK` if the letter's colour is `BLACK`, else the noise colour in noise mode and the letter's colour otherwise |
| `Frame.OverlapIsShifted` | main.go:97-112 | overlapping extents are not detected: a letter at offset 10 after one covering 0..13 is appended at 14, and LED 10 keeps the first letter's colour |
| `AnimationClock.Step` | main.go:185-199 | one ticker firing (iteration, palette or noise) keeps the clock invariant: counter in `[0, maxIteration]`, `next` in `[0, len(palettes))`, current palette just before `next` |
| `AnimationClock.Run` | main.go:185-199 | any sequence of ticker firings from a valid state ends in a valid state |
| `AnimationClock.InitialIsValid` | main.go:175-176 | the state after start-up (counter 0, `palettes[0]`, `next = 1`, noise off) satisfies the clock invariant |
| `AnimationClock.TicksCommute` | main.go:185-199 | two firings of any tickers give the same state in either order |
| `AnimationClock.IterationTicks` | main.go:60-65 | k iteration ticks from a valid state advance the counter by k modulo `maxIteration + 1` and change nothing else |
| `AnimationClock.IterationCycle` | main.go:60-65 | `maxIteration + 1` increments bring the clock back to its starting state |
| `AnimationClock.PaletteTicks` | main.go:189-194 | k palette ticks advance `next` by k modulo `len(palettes)` and leave the counter and noise flag alone |
| `AnimationClock.PaletteCycle` | main.go:189-194 | after `len(palettes)` palette ticks both `next` and `currentPalette` are back at their starting values |
| `AnimationClock.NoiseCycle` | main.go:167-169 | toggling the noise flag twice restores the state |
| `AnimationClock.Clock.constructor` | main.go:175-176 | the clock starts at counter 0, palette `palettes[0]`, `next = 1`, noise off, and is valid |
| `AnimationClock.Clock.IncrementCurrentIteration` | main.go:60-65 | the counter goes from `maxIteration` to 0 and otherwise (from inside the range) up by one; only the counter changes |
| `AnimationClock.Clock.RotatePalette` | main.go:189-194 | `currentPalette` becomes `palettes[next]` and `next` advances, wrapping to 0 at `len(palettes)` and staying in range |
| `AnimationClock.Clock.ToggleUseNoise` | main.go:167-169 | the noise flag is negated and nothing else changes |
| `AnimationClock.Clock.Tick` | main.go:185-199 | serving any ticker keeps the clock valid and performs exactly that ticker's step |
| `Letters.ColorId` | main.go:44 | the palette entry `uint16(rand.Uint32() >> 8)` is bits 8 to 23 of the draw |
| `Letters.TickColor` | main.go:47-52 | the colour a letter stores: `Black` on its blink tick (`SinceBlink == currentIteration`), the drawn palette colour otherwise |
| `Letters.BlackExactlyOnBlink` | main.go:43-52 | when the drawn palette colour is not black, the stored colour is black iff `SinceBlink == currentIteration` |
| `Letters.PaletteColorOffBlink` | main.go:43-52 | off the blink tick the stored colour is the drawn, alpha-scaled palette colour |
| `Letters.Letter.constructor` | main.go:121-124 | a letter copies its configuration entry and points back to its column |
| `Letters.Letter.UpdateColors` | main.go:43-58 | the letter's colour becomes black on its blink tick and otherwise the alpha-scaled entry `uint16(draw >> 8)` of the clock's current palette; no other letter of the column changes; the frame written to the device is the render of the column's letters with their current colours |
| `Letters.Column.constructor` | main.go:115-128 | a column gets one fresh, distinct letter per configuration entry, in order, each linked to the column |
| `Letters.LettersColors` | main.go:89-95 | threading the buffer through `SetLeds` letter by letter yields exactly `Render` of the letters' extents |
| `RandomByte.GetRand` | main.go:158-165 | the byte is `n` when `n <= 255`, is below 255 otherwise, and always agrees with `n` modulo 255 |
| `RandomByte.GetRandMaxOnlyFrom255` | main.go:158-165 | the result is 255 exactly when the draw was 255 |
| `Config.ConfigIsWellFormed` | main.go:254-327 | every column starts at offset 0, each next letter starts at the previous `Offset + Count`, all blink thresholds lie in `[0, maxIteration]`; the columns span 28, 21, 24 and 25 LEDs |
| `Config.ContiguousIsOrdered` | main.go:254-327 | contiguous letters with non-negative counts are in order, and the last one ends at the column's length |
| `Config.BlinkLayout` | main.go:43-54 | after a tick with noise off, a contiguous column's frame spans exactly its letters, and an LED of letter k is black iff k blinks on this tick (for a non-black drawn colour) |
| `Config.GP0BlinkScenario` | main.go:254-272 | on column GP0, LEDs 0-13 (G) are black iff the counter is 1 and LEDs 14-27 (C) are black iff it is 5 |
| `Config.NoiseHidesBlink` | main.go:103-110 | with noise on, an LED of a letter shows the noise colour even on that letter's blink tick |
| `Config.BlinkShowsInEveryMode` | main.go:103-110 | under the corrected noise branch, with noise on or off, an LED of letter k is black exactly on k's blink tick (when its drawn and noise colours are not black) |

## Findings

| source | as written | input that shows it | evidently intended | confidence | as-written member | corrected member |
|---|---|---|---|---|---|---|
| main.go:103-110 | while `USE_NOISE` is on, every pixel `SetLeds` appends is the noise colour, so the `Black` that `UpdateColors` stores on a blink tick (main.go:47-52) never reaches the LEDs | noise on, column GP0 at iteration 1 (G's blink tick), noise colours never black: LEDs 0-13 show noise colours, not black | a letter renders black on its blink tick in every colouring mode; the noise branch keeps a stored `Black` | medium, not executed | `Config.NoiseHidesBlink` | `Config.BlinkShowsInEveryMode` |

## Left out

- `RunTicker`, the `select` timing in `main` and `time.NewTicker`: each timer firing is one atomic step (`Clock.Tick`, `Letter.UpdateColors`). The races between concurrent tickers are not modelled.
- `WriteStringSerial`, `microcontrollerTimeString` and the blink and error log lines in `UpdateColors`: these are serial I/O and the wall clock.
- The pin configuration in `InitLetters`, `ws2812.New` and `Device.WriteColors`: hardware calls. `UpdateColors` returns the frame it would write. A failed write only produces a log line and changes no state.
- The Go map `allTheLetters` is iterated in unspecified order by `InitLetters`. That order does not matter, because columns are independent.
- `ledsgo` (`Palette16.ColorAt`, `ApplyAlpha`, `Noise2`, `Color.Spectrum`), `rand.Uint32`, `rand.Int` and `time.Now`: these are parameters (`paletteColor`, `draw`, `noise`, `n`). `ledsgo.Black` is taken as `RGBA{0,0,0,255}`. No property depends on it differing from the padding pixel.
- The palette colour tables: only the six palettes' identities and their order are modelled.
- `printableLeds`, `colorString`, `partialColorString`: debug string formatting.
- `WaitTime` is kept as a whole number of milliseconds. All configured values are whole milliseconds.
- Go's 64-bit `int` is modelled as an unbounded integer. The iteration counter and palette index never leave small ranges. Offsets and counts are small configuration constants.
- A randomly drawn wait interval with retry is not in `main.go`, which uses fixed wait times; it is not part of this model.
- `AnimationClock.Clock.RotatePalette` requires `next` to be in range. The source would panic on `palettes[next]` otherwise, and the clock invariant guarantees it.
- `getRand` is never called in `main.go`; it is modelled for completeness.
