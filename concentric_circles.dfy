/** The concentric-circles layout engine: rings from the outside of the
    canvas inwards (a growing signed offset gives a smaller square), each
    cut into randomly sized arcs that are drawn or skipped by a random
    acceptance draw. Angles are in sixteenths of a degree. */
module ConcentricCircles {
  import opened NumUtils
  import opened Painter
  import opened Random

  const TOTAL_DEGREES: real := 5760.0     // 360 degrees
  const MIN_ANGLE_SIZE: real := 80.0      // 5 degrees
  const SEAM_ANGLE: real := 0.0           // the seam randomisation is switched off
  const GAP_FACTOR: real := 32.0          // gap after an arc, in paddings
  const ACCEPT_RANGE: int := 10000        // acceptance draws lie in [0, ACCEPT_RANGE)
  const MIN_VALUE: real := 0.07
  const MAX_VALUE: real := 0.95
  const MIN_SAT: real := 0.25
  const MAX_SAT: real := 0.75
  const BORDER_BRIGHTEN: real := 0.1
  const FILL_INSET: real := 4.0

  datatype Option<T> = None | Some(value: T)

  // ---------------------------------------------------------------- colours

  /** The three channels, each in [0, 1], that the HSV conversion returns. */
  datatype Rgb = Rgb(r: real, g: real, b: real)

  /** An 8-bit colour with alpha. */
  datatype Rgba = Rgba(r: int, g: int, b: int, a: int)

  /** Conversion of a real to an integer by truncation towards zero. */
  function Truncate(x: real): (n: int)
    ensures 0.0 <= x ==> 0 <= n && n as real <= x < n as real + 1.0
    ensures x < 0.0 ==> n <= 0 && n as real - 1.0 < x <= n as real
  {
    if 0.0 <= x then x.Floor else -((-x).Floor)
  }

  /** A channel in [0, 1] scaled to [0, 255] and truncated. */
  function Channel(x: real): (c: int)
    ensures 0.0 <= x <= 1.0 ==> 0 <= c <= 255
  {
    Truncate(x * 255.0)
  }

  /** The colour the painter is given for an HSV triple, once converted to
      RGB: each channel truncated to 8 bits, always fully opaque. */
  function GetColor(rgb: Rgb): (c: Rgba)
    ensures c.a == 255
    ensures 0.0 <= rgb.r <= 1.0 && 0.0 <= rgb.g <= 1.0 && 0.0 <= rgb.b <= 1.0 ==>
              0 <= c.r <= 255 && 0 <= c.g <= 255 && 0 <= c.b <= 255
    ensures rgb.r == rgb.g == rgb.b ==> c.r == c.g == c.b
    ensures rgb == Rgb(0.0, 0.0, 0.0) ==> c == Rgba(0, 0, 0, 255)
  {
    Rgba(Channel(rgb.r), Channel(rgb.g), Channel(rgb.b), 255)
  }

  // ---------------------------------------------------------------- arcs

  /** The border's value: the fill's value raised a little, capped at 1. */
  function Brighten(value: real): (v: real)
    ensures v <= 1.0 && v <= value + BORDER_BRIGHTEN
    ensures value <= 1.0 ==> value <= v
    ensures v == value + BORDER_BRIGHTEN || v == 1.0
  {
    if value + BORDER_BRIGHTEN <= 1.0 then value + BORDER_BRIGHTEN else 1.0
  }

  /** The two strokes one accepted arc paints: the border, then the fill. */
  function ArcStrokes(thickness: real, left: real, right: real, start: real, span: real,
                      hue: real, value: real, sat: real): seq<Stroke>
  {
    var rect := Rect(left, left, right - left, right - left);
    var border := Pen(Hsv(hue, sat, Brighten(value)), thickness);
    var fill := border.(color := Hsv(hue, sat, value), width := thickness - FILL_INSET);
    [Stroke(rect, start, span, border), Stroke(rect, start, span, fill)]
  }

  /** Both strokes of an arc lie on the square box over [left, right] on
      both axes, with the same angles, hue and saturation; the fill is 4
      narrower and has the arc's value, the border has the brightened value,
      at least as bright and at most fully bright. */
  lemma BorderAndFill(thickness: real, left: real, right: real, start: real, span: real,
                      hue: real, value: real, sat: real)
    ensures var s := ArcStrokes(thickness, left, right, start, span, hue, value, sat);
            |s| == 2 &&
            s[0].rect == s[1].rect == Rect(left, left, right - left, right - left) &&
            s[0].start == s[1].start == start && s[0].span == s[1].span == span &&
            s[0].pen.color.hue == s[1].pen.color.hue == hue &&
            s[0].pen.color.sat == s[1].pen.color.sat == sat &&
            s[0].pen.width == thickness && s[1].pen.width == thickness - FILL_INSET &&
            s[1].pen.color.value == value && s[0].pen.color.value == Brighten(value) &&
            (value <= 1.0 ==> value <= s[0].pen.color.value <= 1.0)
  {
  }

  /** Paints one accepted arc: picks a hue uniformly from `hues`, then strokes
      the border and the fill. With an empty palette the pick fails and
      nothing is painted. */
  method DrawArc(cp: Canvas, rng: Rng, thickness: real, left: real, right: real,
                 startAngle: real, spanAngle: real, hues: seq<real>, value: real, sat: real)
    returns (ok: bool, colorIndex: nat)
    requires PicksInRange(rng.draws, |hues|)
    modifies cp, rng
    ensures ok == (|hues| > 0)
    ensures ok ==> colorIndex < |hues| && colorIndex == old(rng.draws.picks(rng.at.pick))
    ensures ok ==> rng.at == old(rng.at).(pick := old(rng.at.pick) + 1)
    ensures ok ==> cp.strokes == old(cp.strokes)
                   + ArcStrokes(thickness, left, right, startAngle, spanAngle, hues[colorIndex], value, sat)
    ensures !ok ==> cp.strokes == old(cp.strokes) && rng.at == old(rng.at)
  {
    var picked, n := rng.Pick(|hues|);
    if !picked {
      return false, 0;
    }
    ok, colorIndex := true, n;
    var border := Pen(Hsv(hues[colorIndex], sat, Brighten(value)), thickness);
    var rect := Rect(left, left, right - left, right - left);
    cp.DrawArc(border, rect, startAngle, spanAngle);
    var fill := border.(color := Hsv(hues[colorIndex], sat, value), width := thickness - FILL_INSET);
    cp.DrawArc(fill, rect, startAngle, spanAngle);
  }

  // ---------------------------------------------------------------- draws

  /** Every span draw is uniform over [MIN_ANGLE_SIZE, TOTAL_DEGREES). */
  ghost predicate SpansInRange(d: Streams)
  {
    forall i: nat :: MIN_ANGLE_SIZE <= d.spans(i) < TOTAL_DEGREES
  }

  /** Every acceptance draw is an integer in [0, ACCEPT_RANGE). */
  ghost predicate AcceptsInRange(d: Streams)
  {
    forall i: nat :: 0 <= d.accepts(i) < ACCEPT_RANGE
  }

  /** Every hue pick indexes a palette of `count` hues (when there are any). */
  ghost predicate PicksInRange(d: Streams, count: nat)
  {
    count > 0 ==> forall i: nat :: 0 <= d.picks(i) < count
  }

  ghost predicate DrawsInRange(d: Streams, count: nat)
  {
    SpansInRange(d) && AcceptsInRange(d) && PicksInRange(d, count)
  }

  // ---------------------------------------------------------------- configuration

  /** The caller's (or defaulted) bounds for thickness and padding. */
  datatype Bounds = Bounds(minThickness: real, maxThickness: real, minPadding: real, maxPadding: real)

  /** Everything a run is fixed by, apart from its draws. */
  datatype Config = Config(width: int, bounds: Bounds, minOffset: int, maxOffset: int,
                           hues: seq<real>, arcProbability: real)

  function LongEdge(width: int, height: int): (l: int)
    ensures l >= width && l >= height && (l == width || l == height)
  {
    if width >= height then width else height
  }

  /** Half of `x`, truncated towards zero (integer conversion of x / 2). */
  function TruncHalf(x: int): (h: int)
    ensures 0 <= x ==> 0 <= h && 2 * h <= x <= 2 * h + 1
    ensures x < 0 ==> h <= 0 && 2 * h - 1 <= x <= 2 * h
  {
    if 0 <= x then x / 2 else -((-x) / 2)
  }

  function OrDefault(o: Option<real>, default: real): real
  {
    if o.Some? then o.value else default
  }

  /** Omitted bounds default to fractions of the long edge. */
  function ResolveBounds(longEdge: int, minThickness: Option<real>, maxThickness: Option<real>,
                         minPadding: Option<real>, maxPadding: Option<real>): Bounds
  {
    var l := longEdge as real;
    Bounds(OrDefault(minThickness, l * 0.01), OrDefault(maxThickness, l * 0.08),
           OrDefault(minPadding, l * 0.03), OrDefault(maxPadding, l * 0.08))
  }

  function MakeConfig(width: int, height: int, hues: seq<real>,
                      minThickness: Option<real>, maxThickness: Option<real>,
                      minPadding: Option<real>, maxPadding: Option<real>,
                      arcProbability: real): Config
  {
    var l := LongEdge(width, height);
    Config(width, ResolveBounds(l, minThickness, maxThickness, minPadding, maxPadding),
           TruncHalf(-l), TruncHalf(l), hues, arcProbability)
  }

  /** The least advance of the angle per candidate, for a ring's padding:
      the smallest span plus the padding before and the gap after. */
  function MinAdvance(padding: real): real
  {
    MIN_ANGLE_SIZE + padding + GAP_FACTOR * padding
  }

  /** The outer step (thickness plus padding) and the inner advance are
      positive at both ends of the bounds, hence on every ring. */
  predicate StepsPositive(b: Bounds)
  {
    b.minThickness + b.minPadding > 0.0 && b.maxThickness + b.maxPadding > 0.0 &&
    MinAdvance(b.minPadding) > 0.0 && MinAdvance(b.maxPadding) > 0.0
  }

  /** What makes both loops terminate: positive steps whenever there is a ring. */
  predicate Terminates(cfg: Config)
  {
    cfg.minOffset < cfg.maxOffset ==> StepsPositive(cfg.bounds)
  }

  function MinRingStep(b: Bounds): real
  {
    var lo := b.minThickness + b.minPadding;
    var hi := b.maxThickness + b.maxPadding;
    if lo <= hi then lo else hi
  }

  // ---------------------------------------------------------------- rings

  /** One ring: its signed offset (the square it is drawn on has half side
      `width / 2 - offset - thickness / 2`), the parameters derived
      from it, and the bounds of the square its arcs are drawn on. */
  datatype Ring = Ring(offset: real, thickness: real, value: real, sat: real, padding: real,
                       left: real, right: real)

  /** The ring at `offset`. Thickness, value, saturation and padding run
      linearly from their maximum at the smallest offset (the outermost, largest
      square) to their minimum at the largest; each lies between its two
      bounds. */
  function RingAt(cfg: Config, offset: real): (r: Ring)
    requires cfg.minOffset as real <= offset < cfg.maxOffset as real
    ensures Between(r.thickness, cfg.bounds.minThickness, cfg.bounds.maxThickness)
    ensures Between(r.value, MIN_VALUE, MAX_VALUE)
    ensures Between(r.sat, MIN_SAT, MAX_SAT)
    ensures Between(r.padding, cfg.bounds.minPadding, cfg.bounds.maxPadding)
    ensures Between(r.thickness + r.padding, cfg.bounds.minThickness + cfg.bounds.minPadding,
                    cfg.bounds.maxThickness + cfg.bounds.maxPadding)
    ensures offset == cfg.minOffset as real ==>
              r.thickness == cfg.bounds.maxThickness && r.value == MAX_VALUE &&
              r.sat == MAX_SAT && r.padding == cfg.bounds.maxPadding
    ensures r.offset == offset
  {
    var lo, hi, b := cfg.minOffset as real, cfg.maxOffset as real, cfg.bounds;
    var thickness := Remap(offset, lo, hi, b.maxThickness, b.minThickness);
    var value := Remap(offset, lo, hi, MAX_VALUE, MIN_VALUE);
    var sat := Remap(offset, lo, hi, MAX_SAT, MIN_SAT);
    var padding := Remap(offset, lo, hi, b.maxPadding, b.minPadding);
    RemapBetween(offset, lo, hi, b.maxThickness, b.minThickness);
    RemapBetween(offset, lo, hi, MAX_VALUE, MIN_VALUE);
    RemapBetween(offset, lo, hi, MAX_SAT, MIN_SAT);
    RemapBetween(offset, lo, hi, b.maxPadding, b.minPadding);
    RemapAdd(offset, lo, hi, b.maxThickness, b.minThickness, b.maxPadding, b.minPadding);
    RemapBetween(offset, lo, hi, b.maxThickness + b.maxPadding, b.minThickness + b.minPadding);
    var left := offset + thickness / 2.0;
    Ring(offset, thickness, value, sat, padding, left, cfg.width as real - left)
  }

  // ---------------------------------------------------------------- layout

  /** An arc the layout accepted: its ring, angles and chosen hue. */
  datatype Arc = Arc(ring: Ring, start: real, span: real, hueIndex: nat, hue: real)

  /** The arcs a stretch of the layout draws, the cursor after it, and
      whether it ended in a failed hue pick. */
  datatype Trace = Trace(arcs: seq<Arc>, at: Cursor, failed: bool)

  /** `t` with `prefix` drawn before it. */
  function Join(prefix: seq<Arc>, t: Trace): Trace
  {
    Trace(prefix + t.arcs, t.at, t.failed)
  }

  /** A positive measure that drops by at least one per step of size `step`. */
  lemma StepShrinks(limit: real, x: real, next: real, step: real)
    requires step > 0.0 && x < limit && next >= x + step
    ensures (limit - x) / step > 0.0
    ensures (limit - next) / step <= (limit - x) / step - 1.0
  {
    DivSub(limit - x, limit - next, step);
    assert (limit - x) / step - (limit - next) / step == (next - x) / step;
    DivSub(next - x, step, step);
    assert step / step == 1.0;
    assert (next - x - step) / step >= 0.0;
  }

  /** How many candidates a ring with this padding tries from `angle` on,
      with the span draws from index `span` on. */
  ghost function CandidatesLeft(padding: real, d: Streams, angle: real, span: nat): nat
    requires SpansInRange(d) && MinAdvance(padding) > 0.0
    decreases (TOTAL_DEGREES - angle) / MinAdvance(padding)
  {
    if angle >= TOTAL_DEGREES then 0
    else
      var next := SEAM_ANGLE + angle + padding + d.spans(span) + padding * GAP_FACTOR;
      StepShrinks(TOTAL_DEGREES, angle, next, MinAdvance(padding));
      1 + CandidatesLeft(padding, d, next, span + 1)
  }

  /** How many rings the layout draws from offset `offset` on. */
  ghost function RingsLeft(cfg: Config, offset: real): nat
    requires StepsPositive(cfg.bounds) && cfg.minOffset as real <= offset
    decreases (cfg.maxOffset as real - offset) / MinRingStep(cfg.bounds)
  {
    if offset >= cfg.maxOffset as real then 0
    else
      var ring := RingAt(cfg, offset);
      var next := offset + ring.thickness + ring.padding;
      StepShrinks(cfg.maxOffset as real, offset, next, MinRingStep(cfg.bounds));
      1 + RingsLeft(cfg, next)
  }

  /** The candidates of one ring from angle `angle` on, with the draws from
      cursor `at` on: each candidate takes one span draw and one acceptance
      draw; it is drawn when the acceptance draw is at most the arc
      probability, and then takes one hue pick. */
  function ArcsFrom(ring: Ring, hues: seq<real>, prob: real, d: Streams, angle: real, at: Cursor): Trace
    requires SpansInRange(d) && PicksInRange(d, |hues|) && MinAdvance(ring.padding) > 0.0
    decreases CandidatesLeft(ring.padding, d, angle, at.span)
  {
    if angle >= TOTAL_DEGREES then Trace([], at, false)
    else
      var start := SEAM_ANGLE + angle + ring.padding;
      var span := d.spans(at.span);
      var shouldDraw := d.accepts(at.accept);
      var next := start + span + ring.padding * GAP_FACTOR;
      var taken := at.(span := at.span + 1, accept := at.accept + 1);
      if shouldDraw as real > prob then
        ArcsFrom(ring, hues, prob, d, next, taken)
      else if |hues| == 0 then
        Trace([], taken, true)
      else
        var index := d.picks(taken.pick);
        Join([Arc(ring, start, span, index, hues[index])],
             ArcsFrom(ring, hues, prob, d, next, taken.(pick := taken.pick + 1)))
  }

  /** One candidate of ArcsFrom, unfolded. */
  lemma ArcsFromStep(ring: Ring, hues: seq<real>, prob: real, d: Streams, angle: real, at: Cursor)
    requires SpansInRange(d) && PicksInRange(d, |hues|) && MinAdvance(ring.padding) > 0.0
    requires angle < TOTAL_DEGREES
    ensures var start := SEAM_ANGLE + angle + ring.padding;
            var next := start + d.spans(at.span) + ring.padding * GAP_FACTOR;
            var taken := at.(span := at.span + 1, accept := at.accept + 1);
            ArcsFrom(ring, hues, prob, d, angle, at)
            == if d.accepts(at.accept) as real > prob then ArcsFrom(ring, hues, prob, d, next, taken)
               else if |hues| == 0 then Trace([], taken, true)
               else Join([Arc(ring, start, d.spans(at.span), d.picks(at.pick), hues[d.picks(at.pick)])],
                         ArcsFrom(ring, hues, prob, d, next, taken.(pick := at.pick + 1)))
  {
  }

  /** The rings from offset `offset` on: each ring's arcs, then the next
      ring at an offset one thickness plus one padding larger (further in). A failed hue pick
      ends the layout. */
  function RingsFrom(cfg: Config, d: Streams, offset: real, at: Cursor): Trace
    requires SpansInRange(d) && PicksInRange(d, |cfg.hues|) && StepsPositive(cfg.bounds)
    requires cfg.minOffset as real <= offset
    decreases RingsLeft(cfg, offset)
  {
    if offset >= cfg.maxOffset as real then Trace([], at, false)
    else
      var ring := RingAt(cfg, offset);
      var inner := ArcsFrom(ring, cfg.hues, cfg.arcProbability, d, 0.0, at);
      var next := offset + ring.thickness + ring.padding;
      if inner.failed then inner
      else Join(inner.arcs, RingsFrom(cfg, d, next, inner.at))
  }

  /** One ring of RingsFrom, unfolded, with the measure dropping across it. */
  lemma RingsFromStep(cfg: Config, d: Streams, offset: real, ring: Ring, next: real, at: Cursor)
    requires SpansInRange(d) && PicksInRange(d, |cfg.hues|) && StepsPositive(cfg.bounds)
    requires cfg.minOffset as real <= offset < cfg.maxOffset as real
    requires ring == RingAt(cfg, offset) && next == offset + ring.thickness + ring.padding
    ensures var inner := ArcsFrom(ring, cfg.hues, cfg.arcProbability, d, 0.0, at);
            MinAdvance(ring.padding) > 0.0 && offset < next &&
            RingsLeft(cfg, next) < RingsLeft(cfg, offset) &&
            RingsFrom(cfg, d, offset, at)
            == if inner.failed then inner else Join(inner.arcs, RingsFrom(cfg, d, next, inner.at))
  {
  }

  /** The whole layout of a run, from cursor `at` on. */
  function Layout(cfg: Config, d: Streams, at: Cursor): Trace
    requires SpansInRange(d) && PicksInRange(d, |cfg.hues|) && Terminates(cfg)
  {
    if cfg.minOffset < cfg.maxOffset then RingsFrom(cfg, d, cfg.minOffset as real, at)
    else Trace([], at, false)
  }

  /** The two strokes of an accepted arc. */
  function Strokes(a: Arc): seq<Stroke>
  {
    ArcStrokes(a.ring.thickness, a.ring.left, a.ring.right, a.start, a.span, a.hue, a.ring.value, a.ring.sat)
  }

  /** The strokes painted for `arcs`, in order: two per arc. */
  function Render(arcs: seq<Arc>): (s: seq<Stroke>)
    ensures |s| == 2 * |arcs|
  {
    seq(2 * |arcs|, i requires 0 <= i < 2 * |arcs| => Strokes(arcs[i / 2])[i % 2])
  }

  /** The inner loop for one ring: walks the angle from 0 to a full turn,
      drawing the accepted candidates. Appends exactly the strokes of the
      ring's arcs and leaves the generator after the draws they consumed;
      returns false when a hue pick failed. */
  method DrawRing(cp: Canvas, rng: Rng, ring: Ring, hues: seq<real>, arcProbability: real)
    returns (ok: bool)
    requires SpansInRange(rng.draws) && PicksInRange(rng.draws, |hues|)
    requires MinAdvance(ring.padding) > 0.0
    modifies cp, rng
    ensures var t := ArcsFrom(ring, hues, arcProbability, rng.draws, 0.0, old(rng.at));
            cp.strokes == old(cp.strokes) + Render(t.arcs) && rng.at == t.at && ok == !t.failed
  {
    ghost var d := rng.draws;
    ghost var total := ArcsFrom(ring, hues, arcProbability, d, 0.0, rng.at);
    ghost var arcs: seq<Arc> := [];
    ghost var strokes0 := cp.strokes;
    var curAngle := 0.0;
    while curAngle < TOTAL_DEGREES
      invariant cp.strokes == strokes0 + Render(arcs)
      invariant Walking(ring, hues, arcProbability, d, curAngle, rng.at, arcs, total)
      decreases CandidatesLeft(ring.padding, d, curAngle, rng.at.span)
    {
      ghost var angle0, at0 := curAngle, rng.at;
      var startAngle := SEAM_ANGLE + curAngle + ring.padding;
      var spanAngle := rng.UniformSpan();
      var shouldDraw := rng.AcceptanceDraw();
      curAngle := startAngle + spanAngle + ring.padding * GAP_FACTOR;
      NextCandidate(ring, hues, arcProbability, d, angle0, at0, startAngle, spanAngle, curAngle, arcs, total);
      if shouldDraw as real > arcProbability {
        continue;
      }
      var drew, colorIndex := DrawArc(cp, rng, ring.thickness, ring.left, ring.right, startAngle, spanAngle,
                                      hues, ring.value, ring.sat);
      if !drew {
        assert arcs + [] == arcs;
        return false;
      }
      ghost var arc := Arc(ring, startAngle, spanAngle, colorIndex, hues[colorIndex]);
      RenderSnoc(arcs, arc);
      arcs := arcs + [arc];
    }
    assert arcs + [] == arcs;
    ok := true;
  }

  /** The loop state of DrawRing: `arcs` is what has been drawn, and the
      candidates from `angle` on, with the draws from `at` on, complete it to
      the ring's whole trace `total`. */
  ghost predicate Walking(ring: Ring, hues: seq<real>, prob: real, d: Streams, angle: real, at: Cursor,
                          arcs: seq<Arc>, total: Trace)
    requires SpansInRange(d) && PicksInRange(d, |hues|) && MinAdvance(ring.padding) > 0.0
  {
    total == Join(arcs, ArcsFrom(ring, hues, prob, d, angle, at))
  }

  /** What one candidate does to the inner loop's state: the walk moves one
      candidate on, with fewer candidates left, and the candidate is skipped,
      fails on an empty palette, or joins the drawn arcs. */
  lemma NextCandidate(ring: Ring, hues: seq<real>, prob: real, d: Streams, angle: real, at: Cursor,
                      start: real, span: real, next: real, arcs: seq<Arc>, total: Trace)
    requires SpansInRange(d) && PicksInRange(d, |hues|) && MinAdvance(ring.padding) > 0.0
    requires angle < TOTAL_DEGREES
    requires start == SEAM_ANGLE + angle + ring.padding && span == d.spans(at.span)
    requires next == start + span + ring.padding * GAP_FACTOR
    requires Walking(ring, hues, prob, d, angle, at, arcs, total)
    ensures var taken := at.(span := at.span + 1, accept := at.accept + 1);
            CandidatesLeft(ring.padding, d, next, taken.span) < CandidatesLeft(ring.padding, d, angle, at.span) &&
            (d.accepts(at.accept) as real > prob ==> Walking(ring, hues, prob, d, next, taken, arcs, total)) &&
            (d.accepts(at.accept) as real <= prob && |hues| == 0 ==> total == Trace(arcs, taken, true)) &&
            (d.accepts(at.accept) as real <= prob && |hues| > 0 ==>
               Walking(ring, hues, prob, d, next, taken.(pick := at.pick + 1),
                       arcs + [Arc(ring, start, span, d.picks(at.pick), hues[d.picks(at.pick)])], total))
  {
    ArcsFromStep(ring, hues, prob, d, angle, at);
    if d.accepts(at.accept) as real <= prob && |hues| > 0 {
      var taken := at.(span := at.span + 1, accept := at.accept + 1);
      var arc := Arc(ring, start, span, d.picks(at.pick), hues[d.picks(at.pick)]);
      var rest := ArcsFrom(ring, hues, prob, d, next, taken.(pick := at.pick + 1));
      assert arcs + ([arc] + rest.arcs) == (arcs + [arc]) + rest.arcs;
    }
  }

  /** Runs the layout on `cp` with the generator `rng`: appends to the
      canvas exactly the strokes of the layout its configuration and draws
      determine, and leaves the generator after the draws it consumed. It
      returns false when a hue pick failed (an empty palette). */
  method Run(cp: Canvas, rng: Rng, hues: seq<real>,
             minThickness: Option<real>, maxThickness: Option<real>,
             minPadding: Option<real>, maxPadding: Option<real>,
             arcProbability: real)
    returns (ok: bool)
    requires SpansInRange(rng.draws) && PicksInRange(rng.draws, |hues|)
    requires Terminates(MakeConfig(cp.width, cp.height, hues, minThickness, maxThickness,
                                   minPadding, maxPadding, arcProbability))
    modifies cp, rng
    ensures var t := Layout(MakeConfig(cp.width, cp.height, hues, minThickness, maxThickness,
                                       minPadding, maxPadding, arcProbability),
                            rng.draws, old(rng.at));
            cp.strokes == old(cp.strokes) + Render(t.arcs) && rng.at == t.at && ok == !t.failed
  {
    var cfg := MakeConfig(cp.width, cp.height, hues, minThickness, maxThickness,
                          minPadding, maxPadding, arcProbability);
    ghost var d := rng.draws;
    ghost var total := Layout(cfg, d, rng.at);
    ghost var arcs: seq<Arc> := [];
    ghost var strokes0 := cp.strokes;
    assert Render([]) == [];
    var minOffset := cfg.minOffset as real;
    var maxOffset := cfg.maxOffset as real;
    var curOffset := minOffset;
    while curOffset < maxOffset
      invariant minOffset <= curOffset
      invariant cp.strokes == strokes0 + Render(arcs)
      invariant Pending(cfg, d, curOffset, rng.at, arcs, total)
      decreases RingsAhead(cfg, curOffset)
    {
      var ring := RingAt(cfg, curOffset);
      var nextOffset := curOffset + ring.thickness + ring.padding;
      ghost var inner := ArcsFrom(ring, hues, arcProbability, d, 0.0, rng.at);
      NextRing(cfg, d, curOffset, ring, nextOffset, rng.at, arcs, total);
      LogAppend(strokes0, arcs, inner.arcs);
      ok := DrawRing(cp, rng, ring, hues, arcProbability);
      arcs := arcs + inner.arcs;
      if !ok {
        return;
      }
      curOffset := nextOffset;
    }
    ok := true;
  }

  /** The rings Run still draws from offset `offset` on. */
  ghost function RingsAhead(cfg: Config, offset: real): nat
    requires Terminates(cfg) && cfg.minOffset as real <= offset
  {
    if offset < cfg.maxOffset as real then RingsLeft(cfg, offset) else 0
  }

  /** The loop state of Run: `arcs` is what has been drawn, and the rings
      from `offset` on, with the draws from `at` on, complete it to the whole
      layout `total`. */
  ghost predicate Pending(cfg: Config, d: Streams, offset: real, at: Cursor, arcs: seq<Arc>, total: Trace)
    requires SpansInRange(d) && PicksInRange(d, |cfg.hues|) && Terminates(cfg)
    requires cfg.minOffset as real <= offset
  {
    if offset < cfg.maxOffset as real then total == Join(arcs, RingsFrom(cfg, d, offset, at))
    else total == Trace(arcs, at, false)
  }

  /** What drawing the ring at `offset` does to the loop state: the ring's
      arcs move to the drawn prefix, and either the layout has ended in a
      failure or the next ring is at an offset one thickness plus one padding larger,
      with fewer rings left. */
  lemma NextRing(cfg: Config, d: Streams, offset: real, ring: Ring, next: real, at: Cursor,
                 arcs: seq<Arc>, total: Trace)
    requires SpansInRange(d) && PicksInRange(d, |cfg.hues|) && Terminates(cfg)
    requires cfg.minOffset as real <= offset < cfg.maxOffset as real
    requires ring == RingAt(cfg, offset) && next == offset + ring.thickness + ring.padding
    requires Pending(cfg, d, offset, at, arcs, total)
    ensures var inner := ArcsFrom(ring, cfg.hues, cfg.arcProbability, d, 0.0, at);
            MinAdvance(ring.padding) > 0.0 && cfg.minOffset as real <= next &&
            RingsAhead(cfg, next) < RingsAhead(cfg, offset) &&
            (inner.failed ==> total == Trace(arcs + inner.arcs, inner.at, true)) &&
            (!inner.failed ==> Pending(cfg, d, next, inner.at, arcs + inner.arcs, total))
  {
    var inner := ArcsFrom(ring, cfg.hues, cfg.arcProbability, d, 0.0, at);
    RingsFromStep(cfg, d, offset, ring, next, at);
    if !inner.failed {
      var rest := RingsFrom(cfg, d, next, inner.at);
      assert arcs + (inner.arcs + rest.arcs) == (arcs + inner.arcs) + rest.arcs;
      if cfg.maxOffset as real <= next {
        assert rest.arcs == [];
        assert arcs + inner.arcs + [] == arcs + inner.arcs;
      }
    } else {
      assert inner == Trace(inner.arcs, inner.at, true);
    }
  }

  /** Appending the strokes of `a` and then of `b` to a log appends the
      strokes of `a + b`. */
  lemma LogAppend(log: seq<Stroke>, a: seq<Arc>, b: seq<Arc>)
    ensures log + Render(a) + Render(b) == log + Render(a + b)
  {
    RenderAppend(a, b);
  }

  /** Rendering a concatenation renders its parts one after the other. */
  lemma RenderAppend(a: seq<Arc>, b: seq<Arc>)
    ensures Render(a + b) == Render(a) + Render(b)
  {
    var l, r := Render(a + b), Render(a) + Render(b);
    forall i | 0 <= i < |l| ensures l[i] == r[i] {
      if i >= 2 * |a| {
        assert (i - 2 * |a|) / 2 == i / 2 - |a| && (i - 2 * |a|) % 2 == i % 2;
      }
    }
  }

  /** Rendering one more arc appends its two strokes. */
  lemma RenderSnoc(arcs: seq<Arc>, a: Arc)
    ensures Render(arcs + [a]) == Render(arcs) + Strokes(a)
  {
    RenderAppend(arcs, [a]);
    var r := Render([a]);
    assert r[0] == Strokes(a)[0] && r[1] == Strokes(a)[1];
  }
}
