# Concentric circles: a verified model of the ring-and-arc layout

This project models the generative "concentric circles" artwork of the
creative-art library in Dafny:

- `remap`, the affine range interpolation.
- `run`, the layout engine. It walks a signed ring offset upwards from
  `int(-L / 2)`. Each ring is drawn on the square `(left, left, right - left,
  right - left)` with `left = offset + thickness / 2` and
  `right = width - left`, so the half side is
  `width / 2 - offset - thickness / 2`: the first ring has the largest
  square and the walk moves inwards. For each ring it derives a thickness,
  a colour value, a saturation and a padding by `remap`. It then walks the angle round the ring
  in Qt sixteenth-degrees, drawing or skipping randomly sized candidate arcs.
- `draw_arc`, which paints one accepted arc as a border stroke and a narrower
  fill stroke.
- `get_color`, modelled only as the truncation of RGB channels to 8 bits with
  alpha 255.

The model is split into five modules:

- `NumUtils` (`num_utils.dfy`): `Remap` over `real`, and its algebra.
- `Painter` (`painter.dfy`): the Qt painter replaced by a `Canvas` class. The
  class holds a log of stroke records (`strokes: seq<Stroke>`), and its
  `DrawArc` method appends one record per painter call.
- `Random` (`random.dfy`): numpy's seeded global generator replaced by an
  `Rng` class. The class reads three fixed infinite streams of draws: spans,
  acceptance draws and hue picks. A `Cursor` field counts what each stream
  has consumed. For a fixed seed *and* fixed parameters (palette,
  probability, bounds, canvas), the values every draw receives are fixed.
  Such a `Streams` value stands for them, and reproducibility becomes
  determinism.
- `ConcentricCircles` (`concentric_circles.dfy`): the configuration, the ring
  parameters and the imperative `DrawArc`, `DrawRing` and `Run`. DrawRing is
  the inner `while` loop over the angle; Run is the outer loop over the
  offset. Both are proved against pure specification functions:
  - `ArcsFrom` gives the arcs of one ring for given draws;
  - `RingsFrom` and `Layout` give the arcs of the whole run;
  - `Render` gives the strokes a list of arcs paints.

  Run's postcondition says that the canvas log grows by exactly
  `Render(Layout(...).arcs)`, and that the generator ends where the layout
  says.
- `LayoutProperties` (`layout_properties.dfy`): lemmas about the layout
  functions, and through them about Run. They cover:
  - draw accounting;
  - the acceptance rule;
  - arc placement and order;
  - ring bounds and monotonicity;
  - configuration defaults;
  - termination bounds.

Modelling choices that follow the code:

- The acceptance test skips a candidate when `should_draw > arc_probability`.
  A candidate is therefore drawn when its draw is *at most* the probability.
  A probability of 0 still draws any candidate whose draw is exactly 0
  (`ZeroProbabilityCanDraw`).
- `right = width - left` uses the canvas width even when the height is the
  long edge. The model keeps this (`Config.width`).
- An empty hue palette makes `np.random.randint(0, 0)` raise, but only once
  some candidate is accepted. The model returns `ok == false` at exactly that
  point and leaves the log unchanged (the empty palette means nothing was
  drawn before). Run is not given a precondition against an empty palette.
- Offsets are `int(-L / 2)` and `int(L / 2)`, with truncation toward zero
  (`TruncHalf`).
- Channel conversion is `int(x * 255)`, also truncation toward zero
  (`Truncate`).

## Model

| member | source | states |
|---|---|---|
| `NumUtils.Remap` | utils/num_utils.py:1-11 | The formula needs a non-degenerate old range (it divides by its width). The start of the old range maps to the start of the new one. |
| `NumUtils.RemapReachesEnd` | utils/num_utils.py:11 | The end of the old range maps to the end of the new one. |
| `NumUtils.RemapIsAffine` | utils/num_utils.py:11 | The result is `newStart` plus the fraction of the old range covered, times the width of the new range. |
| `NumUtils.RemapDifference` | utils/num_utils.py:11 | The difference of two results is the difference of their fractions times the new width. Movement in the new range is proportional to movement in the old one. |
| `NumUtils.RemapConstantTarget` | utils/num_utils.py:11 | A degenerate new range maps every value to its single point. |
| `NumUtils.FractionInUnit` | utils/num_utils.py:11 | Inside an increasing old range, the covered fraction lies in [0, 1]. |
| `NumUtils.FractionMonotone` | utils/num_utils.py:11 | The covered fraction grows with the value. |
| `NumUtils.RemapBetween` | utils/num_utils.py:11 | A value inside an increasing old range maps between `newStart` and `newEnd`, in either order. |
| `NumUtils.RemapMonotone` | utils/num_utils.py:11 | On an increasing old range the map is non-decreasing for an upward new range and non-increasing for a downward one. |
| `NumUtils.RemapNonIncreasingIff` | utils/num_utils.py:11 | The map is non-increasing over the whole old range if and only if `newEnd <= newStart`. |
| `NumUtils.RemapUnclamped` | utils/num_utils.py:11 | There is no clamping: a value past the old end lands strictly past the new end. |
| `NumUtils.RemapUnclampedBelow` | utils/num_utils.py:11 | No clamping below either: a value before the old start lands strictly before the new start, on the far side from the new end. |
| `NumUtils.RemapStepBound` | utils/num_utils.py:11 | On a downward target range no wider than the old range, the result falls by at most as much as the value rises. |
| `NumUtils.RemapAdd` | utils/num_utils.py:11 | Remapping to two ranges and adding the results equals remapping to their sum. This is what bounds thickness plus padding. |
| `Painter.Canvas.DrawArc` | art/concentric_circles.py:33 | A painter call appends exactly one stroke record (box, start, span, pen) to the log. |
| `Random.Rng.UniformSpan` | art/concentric_circles.py:101 | Returns the next span draw and advances only the span cursor. |
| `Random.Rng.AcceptanceDraw` | art/concentric_circles.py:102 | Returns the next acceptance draw and advances only the acceptance cursor. |
| `Random.Rng.Pick` | art/concentric_circles.py:24 | An empty range is an error: nothing is drawn and the cursor is unchanged. Otherwise it returns the next hue pick and advances only the pick cursor. |
| `ConcentricCircles.Truncate` | art/concentric_circles.py:18 | `int()` truncates toward zero: the result is within 1 of `x`, on the zero side. |
| `ConcentricCircles.Channel` | art/concentric_circles.py:18 | A channel in [0, 1] scales to an integer in [0, 255]. |
| `ConcentricCircles.GetColor` | art/concentric_circles.py:15-18 | Alpha is always 255, and channels in [0, 1] give 8-bit channels. Equal channels (a gray) stay equal, and black stays black. |
| `ConcentricCircles.Brighten` | art/concentric_circles.py:27 | The border value `min(v + 0.1, 1)` is at most 1 and at most `v + 0.1`, equals one of the two, and is at least `v` when `v <= 1`. |
| `ConcentricCircles.BorderAndFill` | art/concentric_circles.py:27-42 | An arc is two strokes on the same square box `(left, left, right - left, right - left)`, with the same start, span, hue and saturation. The border has width `thickness` and the brightened value; the fill has width `thickness - 4` and value `v`. |
| `ConcentricCircles.DrawArc` | art/concentric_circles.py:21-42 | The pick fails exactly when the palette is empty, and then nothing changes. Otherwise the hue index is the next pick, lies in `[0, len(hues))`, and the log grows by exactly the border and fill strokes in that hue. |
| `ConcentricCircles.LongEdge` | art/concentric_circles.py:54 | The long edge is the larger of width and height. |
| `ConcentricCircles.TruncHalf` | art/concentric_circles.py:76-78 | `int(x / 2)` truncates toward zero: twice the result is `x` or one short of it on the zero side. |
| `ConcentricCircles.RingAt` | art/concentric_circles.py:83-90 | Offsets in `[minOffset, maxOffset)` meet `remap`'s precondition. Thickness, value, saturation, padding, and thickness plus padding each lie between their two bounds. On the first ring each equals its maximum bound. |
| `ConcentricCircles.ArcStrokes` | art/concentric_circles.py:27-42 | Reference definition of the border and fill strokes of one arc. What it promises is stated by `BorderAndFill`. |
| `ConcentricCircles.ResolveBounds` | art/concentric_circles.py:56-66 | Reference definition of the defaulted bounds: an omitted bound becomes its fraction of the long edge. `DefaultsTerminate` states the defaults and that they terminate. |
| `ConcentricCircles.MakeConfig` | art/concentric_circles.py:54-78 | Reference definition of a run's configuration: the long edge, the resolved bounds and the offsets `int(-L / 2)` and `int(L / 2)`. `OffsetsSymmetric` and `RingsExistIff` state what follows, and `Run` is proved against it. |
| `ConcentricCircles.ArcsFrom` | art/concentric_circles.py:99-108 | Reference definition of the inner loop for given draws. Each candidate starts one padding past the angle, and the next angle is its start plus its span plus 32 paddings. It is skipped when its draw exceeds the probability, fails on an empty palette, or else becomes an arc with the next hue pick. `ArcsFromAccounting`, `ArcsFromFit`, `ArcsFromOrdered` and `ArcsFromCandidates` prove its promises, and `DrawRing` is proved against it. |
| `ConcentricCircles.RingsFrom` | art/concentric_circles.py:82-110 | Reference definition of the outer loop from one offset on: each ring's arcs, then the ring at an offset `thickness + padding` larger (further in); a failed pick ends it. `RingsFromFacts`, `RingsFromOrdered`, `RingsFromFailure` and `RingsBound` prove its promises. |
| `ConcentricCircles.Layout` | art/concentric_circles.py:76-82 | Reference definition of a whole run: the rings from `minOffset` on, or nothing when there is no ring. `LayoutFacts` proves its promises, and `Run` is proved against it. |
| `ConcentricCircles.RingsFromStep` | art/concentric_circles.py:82-110 | One ring: its arcs, then the rings from `offset + thickness + padding`, with fewer rings left. A failed pick ends the layout. |
| `ConcentricCircles.Render` | art/concentric_circles.py:33-42 | Arcs render to exactly two strokes each. |
| `ConcentricCircles.DrawRing` | art/concentric_circles.py:92-108 | The inner loop appends exactly `Render` of the ring's arcs and leaves the generator where `ArcsFrom` says. It returns false exactly when the ring's trace failed. |
| `ConcentricCircles.Run` | art/concentric_circles.py:45-111 | The run appends exactly `Render` of the layout's arcs for its configuration, with the defaulted bounds. It leaves the generator after the layout's draws, and returns false exactly when the layout failed. |
| `LayoutProperties.ArcsFromAccounting` | art/concentric_circles.py:99-108 | A ring takes one span draw and one acceptance draw per candidate, and one pick per arc. Without a failure, the arcs are as many as the accepted draws. It fails if and only if the palette is empty and some draw was accepted. An empty palette draws nothing. |
| `LayoutProperties.ArcsFromFit` | art/concentric_circles.py:92-103 | Every arc belongs to the ring and has a span in [80, 5760). Its hue is the palette entry its index names. Its start lies in `[angle + padding, 5760 + padding)`. |
| `LayoutProperties.ArcsFromOrdered` | art/concentric_circles.py:100-103 | Each arc starts at least 33 paddings past the end of the one before (span plus 32 paddings of gap plus one of padding), so starts strictly increase. |
| `LayoutProperties.AcceptedNone` | art/concentric_circles.py:102-106 | With acceptance draws in [0, 10000), a negative probability accepts none of them. |
| `LayoutProperties.AcceptedAll` | art/concentric_circles.py:102-106 | A probability of at least 9999 accepts every draw in the stretch. |
| `LayoutProperties.NegativeProbabilityDrawsNothing` | art/concentric_circles.py:102-106 | Below the range of the acceptance draws, no arc is drawn and no failure occurs. |
| `LayoutProperties.CertainProbabilityDrawsAll` | art/concentric_circles.py:102-108 | A probability of at least 9999 (the default 10000 included) draws every candidate. |
| `LayoutProperties.ZeroProbabilityCanDraw` | art/concentric_circles.py:105-108 | Probability 0 still draws a candidate whose draw is 0, at one padding past the current angle. |
| `LayoutProperties.RingsFromFacts` | art/concentric_circles.py:82-110 | Every arc lies on the ring at some offset in `[minOffset, maxOffset)`, at or beyond the starting offset, and fits it. A failure needs an empty palette. Pick and span accounting hold across rings. |
| `LayoutProperties.RingsFromOrdered` | art/concentric_circles.py:82-110 | Arcs come ring after ring by increasing offset, that is inwards. Within a ring, each start lies at least the previous span plus 33 paddings past the previous start, in the unwrapped angle. With non-negative padding, consecutive arcs therefore do not overlap before the full turn. This is not non-overlap on the circle (see "## Left out"). |
| `LayoutProperties.LayoutFacts` | art/concentric_circles.py:76-111 | The whole layout: all arcs are layout arcs, in layout order. One pick is spent per arc, and spans and acceptance draws advance together. It fails exactly when the palette is empty and some acceptance draw was accepted. An empty palette draws nothing. |
| `LayoutProperties.RingsFromFailure` | art/concentric_circles.py:82-110 | The rings from an offset on fail if and only if the palette is empty and some acceptance draw they consumed was at most the probability. |
| `LayoutProperties.AcceptedSplit` | art/concentric_circles.py:99-106 | The accepted draws of two adjacent stretches of the acceptance stream add up. |
| `LayoutProperties.LayoutArcBounds` | art/concentric_circles.py:83-90 | A layout arc's thickness, value, saturation and padding are within their bounds, and its square is centred at `width / 2`. |
| `LayoutProperties.RingStepPositive` | art/concentric_circles.py:110 | Under `StepsPositive` (positive bound sums and a positive least angular advance at both padding bounds), the outer step `thickness + padding` is at least the smaller bound sum, hence positive, and every ring's least angular advance is positive. |
| `LayoutProperties.RingHalfSide` | art/concentric_circles.py:88-90 | The square a ring is drawn on has half side `width / 2 - offset - thickness / 2`. |
| `LayoutProperties.SquaresShrinkInwards` | art/concentric_circles.py:83-90 | With ordered thickness bounds no wider apart than the offset range, a ring at a larger offset is drawn on a strictly smaller square. The first ring is the outermost. |
| `LayoutProperties.RingsFadeInwards` | art/concentric_circles.py:83-86 | At a larger offset (further in) a ring is at most as bright and at most as saturated, and, for ordered bounds, at most as thick and at most as padded. |
| `LayoutProperties.OffsetsSymmetric` | art/concentric_circles.py:76-78 | `minOffset == -maxOffset`. |
| `LayoutProperties.RingsExistIff` | art/concentric_circles.py:76-82 | There is at least one ring if and only if the long edge is at least 2. |
| `LayoutProperties.DegenerateEdgeDrawsNothing` | art/concentric_circles.py:76-82 | A long edge below 2 gives an empty layout that consumes no draws, whatever the bounds. |
| `LayoutProperties.DefaultsTerminate` | art/concentric_circles.py:54-66 | Omitted bounds default to 0.01, 0.08, 0.03 and 0.08 of the long edge, and these defaults always satisfy the termination condition. |
| `LayoutProperties.ArcsFromCandidates` | art/concentric_circles.py:99-103 | A ring that does not fail tries exactly `CandidatesLeft` candidates and draws at most one arc per candidate. |
| `LayoutProperties.CandidatesBound` | art/concentric_circles.py:99-103 | The candidates from an angle number fewer than the remaining turn divided by the least advance, plus one. |
| `LayoutProperties.RingCandidatesAtMost72` | art/concentric_circles.py:80 | With non-negative padding a ring tries, and so draws, at most 72 candidates (5760 / 80). |
| `LayoutProperties.RingsBound` | art/concentric_circles.py:82-110 | The rings left number fewer than the remaining offset range divided by the smaller ring step, plus one. |

## Left out

- Qt itself is left out: the `qt5` painter wrapper, the painter session
  (`with cp`), antialiasing, the flat cap style, `setPen`, and rasterisation.
  The canvas is a log of stroke records.
- `default_run`, `main.py`, file output and the gradient background are left
  out: they are I/O and rendering.
- `colorsys.hsv_to_rgb` is a library call. The stroke records keep the HSV
  triple, and `GetColor` models only the 8-bit truncation and alpha of an
  RGB triple.
- numpy's generator and the seed choice (`random.randint`, `np.random.seed`)
  are left out. A run's draws are modelled as a fixed `Streams` value. The
  stream ranges are preconditions about that generator:
  - span draws in [80, 5760);
  - acceptance draws in [0, 10000);
  - picks inside the palette.
- The interleaving of the single generator is left out. In the code the
  hue picks, span draws and acceptance draws all come from one numpy
  generator, in call order, so which value the k-th span draw receives
  depends on how many picks came before it. That count depends on the
  palette and the probability. The three per-kind streams are therefore
  fixed by a seed together with the parameters, not by the seed alone. The
  model says nothing about how layouts from one seed relate across
  different probabilities or palettes.
- Floating point is left out: all arithmetic is over `real`, so the model
  assumes the float formulas commute exactly.
- Qt's integer coercion of pen widths and angles is left out. A fill width
  `thickness - 4 <= 0` is recorded as computed, unclamped.
- Rings whose offset passes `width / 2 - thickness / 2` get `right < left`,
  a square of negative side. The model records that box as computed, and
  does not model what Qt then draws.
- Non-overlap of arcs on the circle is not promised. The last candidate of
  a ring may start anywhere below `5760 + padding`, with a span of up to
  5760, so it may run past the seam and over the first arc of the ring. A
  negative padding (allowed when `80 + 33 * padding > 0`) lets an arc start
  inside the one before. `ArcsFromOrdered` and `RingsFromOrdered` state
  only the separation of starts in the unwrapped angle.
- The `iteration` counter is left out: it is incremented and never read.
- A `None` value of `arc_probability` is left out. The code would fail at the
  comparison, and the model takes a number.
- `ConcentricCircles.Run`: its precondition `Terminates` asks that, whenever
  there is a ring, `thickness + padding` is positive at both bounds and so is
  the least angular advance `80 + 33 * padding`. The code has no such check,
  and its loops do not stop when a step is not positive. The condition is
  sufficient, so some inputs for which the code happens to finish are
  excluded.
- `ConcentricCircles.DrawRing`: it likewise requires a positive least
  angular advance.
- `ConcentricCircles.Run`: where the code raises on an empty palette, Run
  returns `false` instead.
