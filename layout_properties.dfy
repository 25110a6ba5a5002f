/** What the concentric-circles layout guarantees: how each ring spends its
    draws, where its arcs lie, which ones are drawn, and how the rings
    are placed on the canvas. */
module LayoutProperties {
  import opened NumUtils
  import opened Random
  import opened ConcentricCircles

  // ---------------------------------------------------------------- acceptance

  /** How many of the acceptance draws with indices in [from, to) let their
      candidate through at probability `prob`. */
  function Accepted(d: Streams, prob: real, from: nat, to: nat): (n: nat)
    ensures from <= to ==> n <= to - from
    decreases (to as int) - (from as int)
  {
    if to <= from then 0
    else (if d.accepts(from) as real <= prob then 1 else 0) + Accepted(d, prob, from + 1, to)
  }

  /** One ring spends one span draw and one acceptance draw per candidate,
      and one hue pick per drawn arc. A candidate is drawn exactly when its
      acceptance draw is at most the probability, so the arcs are as many
      as the accepted draws; the ring fails exactly when the palette is
      empty and some candidate was accepted, and then draws nothing. */
  lemma {:induction false} ArcsFromAccounting(ring: Ring, hues: seq<real>, prob: real, d: Streams,
                                              angle: real, at: Cursor)
    requires SpansInRange(d) && PicksInRange(d, |hues|) && MinAdvance(ring.padding) > 0.0
    ensures var t := ArcsFrom(ring, hues, prob, d, angle, at);
            at.span <= t.at.span && t.at.accept - at.accept == t.at.span - at.span &&
            t.at.pick == at.pick + |t.arcs| &&
            (!t.failed ==> |t.arcs| == Accepted(d, prob, at.accept, t.at.accept)) &&
            (t.failed <==> |hues| == 0 && Accepted(d, prob, at.accept, t.at.accept) > 0) &&
            (|hues| == 0 ==> t.arcs == [])
    decreases CandidatesLeft(ring.padding, d, angle, at.span)
  {
    if angle < TOTAL_DEGREES {
      ArcsFromStep(ring, hues, prob, d, angle, at);
      var start := SEAM_ANGLE + angle + ring.padding;
      var next := start + d.spans(at.span) + ring.padding * GAP_FACTOR;
      var taken := at.(span := at.span + 1, accept := at.accept + 1);
      if d.accepts(at.accept) as real > prob {
        ArcsFromAccounting(ring, hues, prob, d, next, taken);
      } else if |hues| > 0 {
        ArcsFromAccounting(ring, hues, prob, d, next, taken.(pick := at.pick + 1));
      }
    }
  }

  // ---------------------------------------------------------------- placement

  /** An arc of `ring` a walk from angle `angle` may draw: it belongs to the
      ring, its span lies in the range of the span draws, its hue is the
      palette entry its index names, and it starts at least one padding past
      `angle` and before a full turn plus one padding. */
  ghost predicate ArcFits(a: Arc, ring: Ring, hues: seq<real>, angle: real)
  {
    a.ring == ring && MIN_ANGLE_SIZE <= a.span < TOTAL_DEGREES &&
    a.hueIndex < |hues| && a.hue == hues[a.hueIndex] &&
    angle + ring.padding <= a.start < TOTAL_DEGREES + ring.padding
  }

  /** Every arc of a ring fits it. */
  lemma {:induction false} ArcsFromFit(ring: Ring, hues: seq<real>, prob: real, d: Streams,
                                       angle: real, at: Cursor)
    requires SpansInRange(d) && PicksInRange(d, |hues|) && MinAdvance(ring.padding) > 0.0
    ensures var arcs := ArcsFrom(ring, hues, prob, d, angle, at).arcs;
            forall k :: 0 <= k < |arcs| ==> ArcFits(arcs[k], ring, hues, angle)
    decreases CandidatesLeft(ring.padding, d, angle, at.span)
  {
    if angle < TOTAL_DEGREES {
      ArcsFromStep(ring, hues, prob, d, angle, at);
      var start := SEAM_ANGLE + angle + ring.padding;
      var next := start + d.spans(at.span) + ring.padding * GAP_FACTOR;
      var taken := at.(span := at.span + 1, accept := at.accept + 1);
      if d.accepts(at.accept) as real > prob {
        ArcsFromFit(ring, hues, prob, d, next, taken);
        var arcs := ArcsFrom(ring, hues, prob, d, next, taken).arcs;
        forall k | 0 <= k < |arcs| ensures ArcFits(arcs[k], ring, hues, angle) {
          assert ArcFits(arcs[k], ring, hues, next);
        }
      } else if |hues| > 0 {
        var rest := ArcsFrom(ring, hues, prob, d, next, taken.(pick := at.pick + 1)).arcs;
        ArcsFromFit(ring, hues, prob, d, next, taken.(pick := at.pick + 1));
        var arcs := [Arc(ring, start, d.spans(at.span), d.picks(at.pick), hues[d.picks(at.pick)])] + rest;
        forall k | 0 <= k < |arcs| ensures ArcFits(arcs[k], ring, hues, angle) {
          if k > 0 { assert arcs[k] == rest[k - 1] && ArcFits(rest[k - 1], ring, hues, next); }
        }
      }
    }
  }

  /** Each arc of a ring starts no earlier than the end of the one before
      plus the gap and the padding: the starts strictly increase. */
  lemma {:induction false} ArcsFromOrdered(ring: Ring, hues: seq<real>, prob: real, d: Streams,
                                           angle: real, at: Cursor)
    requires SpansInRange(d) && PicksInRange(d, |hues|) && MinAdvance(ring.padding) > 0.0
    ensures var arcs := ArcsFrom(ring, hues, prob, d, angle, at).arcs;
            forall k :: 0 <= k < |arcs| - 1 ==>
              arcs[k].start + arcs[k].span + (GAP_FACTOR + 1.0) * ring.padding <= arcs[k + 1].start
    decreases CandidatesLeft(ring.padding, d, angle, at.span)
  {
    if angle < TOTAL_DEGREES {
      ArcsFromStep(ring, hues, prob, d, angle, at);
      var start := SEAM_ANGLE + angle + ring.padding;
      var next := start + d.spans(at.span) + ring.padding * GAP_FACTOR;
      var taken := at.(span := at.span + 1, accept := at.accept + 1);
      if d.accepts(at.accept) as real > prob {
        ArcsFromOrdered(ring, hues, prob, d, next, taken);
      } else if |hues| > 0 {
        var rest := ArcsFrom(ring, hues, prob, d, next, taken.(pick := at.pick + 1)).arcs;
        ArcsFromOrdered(ring, hues, prob, d, next, taken.(pick := at.pick + 1));
        ArcsFromFit(ring, hues, prob, d, next, taken.(pick := at.pick + 1));
        var arcs := [Arc(ring, start, d.spans(at.span), d.picks(at.pick), hues[d.picks(at.pick)])] + rest;
        forall k | 0 <= k < |arcs| - 1
          ensures arcs[k].start + arcs[k].span + (GAP_FACTOR + 1.0) * ring.padding <= arcs[k + 1].start
        {
          if k == 0 {
            assert ArcFits(rest[0], ring, hues, next);
          } else {
            assert arcs[k] == rest[k - 1] && arcs[k + 1] == rest[k];
          }
        }
      }
    }
  }

  // ---------------------------------------------------------------- probability

  /** Below the range of the acceptance draws nothing is accepted. */
  lemma {:induction false} AcceptedNone(d: Streams, prob: real, from: nat, to: nat)
    requires AcceptsInRange(d) && prob < 0.0
    ensures Accepted(d, prob, from, to) == 0
    decreases (to as int) - (from as int)
  {
    if from < to {
      AcceptedNone(d, prob, from + 1, to);
    }
  }

  /** At or above the largest acceptance draw everything is accepted. */
  lemma {:induction false} AcceptedAll(d: Streams, prob: real, from: nat, to: nat)
    requires AcceptsInRange(d) && prob >= (ACCEPT_RANGE - 1) as real && from <= to
    ensures Accepted(d, prob, from, to) == to - from
    decreases (to as int) - (from as int)
  {
    if from < to {
      AcceptedAll(d, prob, from + 1, to);
    }
  }

  /** The accepted draws of two adjacent stretches add up. */
  lemma {:induction false} AcceptedSplit(d: Streams, prob: real, a: nat, b: nat, c: nat)
    requires a <= b <= c
    ensures Accepted(d, prob, a, c) == Accepted(d, prob, a, b) + Accepted(d, prob, b, c)
    decreases b - a
  {
    if a < b {
      AcceptedSplit(d, prob, a + 1, b, c);
    }
  }

  /** A negative probability draws no arc and so cannot fail. */
  lemma NegativeProbabilityDrawsNothing(ring: Ring, hues: seq<real>, prob: real, d: Streams,
                                        angle: real, at: Cursor)
    requires DrawsInRange(d, |hues|) && MinAdvance(ring.padding) > 0.0 && prob < 0.0
    ensures var t := ArcsFrom(ring, hues, prob, d, angle, at);
            t.arcs == [] && !t.failed
  {
    var t := ArcsFrom(ring, hues, prob, d, angle, at);
    ArcsFromAccounting(ring, hues, prob, d, angle, at);
    AcceptedNone(d, prob, at.accept, t.at.accept);
  }

  /** A probability of at least ACCEPT_RANGE - 1 (the default is
      ACCEPT_RANGE) draws every candidate, given a palette. */
  lemma CertainProbabilityDrawsAll(ring: Ring, hues: seq<real>, prob: real, d: Streams,
                                   angle: real, at: Cursor)
    requires DrawsInRange(d, |hues|) && MinAdvance(ring.padding) > 0.0
    requires prob >= (ACCEPT_RANGE - 1) as real && |hues| > 0
    ensures var t := ArcsFrom(ring, hues, prob, d, angle, at);
            !t.failed && |t.arcs| == t.at.accept - at.accept
  {
    var t := ArcsFrom(ring, hues, prob, d, angle, at);
    ArcsFromAccounting(ring, hues, prob, d, angle, at);
    AcceptedAll(d, prob, at.accept, t.at.accept);
  }

  /** Probability 0 does not switch drawing off: a candidate whose
      acceptance draw is 0 is drawn, at one padding past the current angle. */
  lemma ZeroProbabilityCanDraw(ring: Ring, hues: seq<real>, d: Streams, angle: real, at: Cursor)
    requires SpansInRange(d) && PicksInRange(d, |hues|) && MinAdvance(ring.padding) > 0.0
    requires angle < TOTAL_DEGREES && |hues| > 0 && d.accepts(at.accept) == 0
    ensures var t := ArcsFrom(ring, hues, 0.0, d, angle, at);
            |t.arcs| > 0 && t.arcs[0].start == angle + ring.padding &&
            t.arcs[0].span == d.spans(at.span) && t.arcs[0].hueIndex == d.picks(at.pick)
  {
    ArcsFromStep(ring, hues, 0.0, d, angle, at);
  }

  // ---------------------------------------------------------------- rings

  /** An arc of the layout: its ring is the ring at an offset inside
      [minOffset, maxOffset), and it fits that ring. */
  ghost predicate LayoutArc(cfg: Config, a: Arc)
  {
    cfg.minOffset as real <= a.ring.offset < cfg.maxOffset as real &&
    a.ring == RingAt(cfg, a.ring.offset) && ArcFits(a, a.ring, cfg.hues, 0.0)
  }

  /** Every arc of the rings from `offset` on is a layout arc on a ring at
      `offset` or a larger one; the rings spend the draws as each of them
      does; and a failure needs an empty palette, which draws nothing. */
  lemma {:induction false} RingsFromFacts(cfg: Config, d: Streams, offset: real, at: Cursor)
    requires SpansInRange(d) && PicksInRange(d, |cfg.hues|) && StepsPositive(cfg.bounds)
    requires cfg.minOffset as real <= offset
    ensures var t := RingsFrom(cfg, d, offset, at);
            (forall k :: 0 <= k < |t.arcs| ==> offset <= t.arcs[k].ring.offset && LayoutArc(cfg, t.arcs[k])) &&
            at.span <= t.at.span && t.at.accept - at.accept == t.at.span - at.span &&
            t.at.pick == at.pick + |t.arcs| &&
            (t.failed ==> |cfg.hues| == 0) && (|cfg.hues| == 0 ==> t.arcs == [])
    decreases RingsLeft(cfg, offset)
  {
    if offset < cfg.maxOffset as real {
      var ring := RingAt(cfg, offset);
      var next := offset + ring.thickness + ring.padding;
      RingsFromStep(cfg, d, offset, ring, next, at);
      var inner := ArcsFrom(ring, cfg.hues, cfg.arcProbability, d, 0.0, at);
      ArcsFromAccounting(ring, cfg.hues, cfg.arcProbability, d, 0.0, at);
      ArcsFromFit(ring, cfg.hues, cfg.arcProbability, d, 0.0, at);
      if !inner.failed {
        var rest := RingsFrom(cfg, d, next, inner.at);
        RingsFromFacts(cfg, d, next, inner.at);
        var arcs := inner.arcs + rest.arcs;
        forall k | 0 <= k < |arcs| ensures offset <= arcs[k].ring.offset && LayoutArc(cfg, arcs[k]) {
          if k < |inner.arcs| {
            assert arcs[k] == inner.arcs[k] && ArcFits(inner.arcs[k], ring, cfg.hues, 0.0);
          } else {
            assert arcs[k] == rest.arcs[k - |inner.arcs|];
          }
        }
      }
    }
  }

  /** `b` is drawn after `a` in layout order: on a ring at a larger offset
      (further in), or on the same ring starting, in the unwrapped angle, at
      least `a`'s span plus its gap and one padding past `a`'s start. This is
      not non-overlap on the circle: the last arc of a ring may run past a
      full turn and over the first, and a negative padding lets an arc start
      inside the one before. */
  ghost predicate InOrder(a: Arc, b: Arc)
  {
    a.ring.offset < b.ring.offset ||
    (a.ring == b.ring && a.start + a.span + (GAP_FACTOR + 1.0) * a.ring.padding <= b.start)
  }

  /** The layout draws ring after ring by increasing offset (inwards), and
      within a ring each start lies at least the previous span plus 33
      paddings past the previous start, in the unwrapped angle. */
  lemma {:induction false} RingsFromOrdered(cfg: Config, d: Streams, offset: real, at: Cursor)
    requires SpansInRange(d) && PicksInRange(d, |cfg.hues|) && StepsPositive(cfg.bounds)
    requires cfg.minOffset as real <= offset
    ensures var arcs := RingsFrom(cfg, d, offset, at).arcs;
            forall k :: 0 <= k < |arcs| - 1 ==> InOrder(arcs[k], arcs[k + 1])
    decreases RingsLeft(cfg, offset)
  {
    if offset < cfg.maxOffset as real {
      var ring := RingAt(cfg, offset);
      var next := offset + ring.thickness + ring.padding;
      RingsFromStep(cfg, d, offset, ring, next, at);
      var inner := ArcsFrom(ring, cfg.hues, cfg.arcProbability, d, 0.0, at);
      ArcsFromFit(ring, cfg.hues, cfg.arcProbability, d, 0.0, at);
      ArcsFromOrdered(ring, cfg.hues, cfg.arcProbability, d, 0.0, at);
      if !inner.failed {
        var rest := RingsFrom(cfg, d, next, inner.at);
        RingsFromOrdered(cfg, d, next, inner.at);
        RingsFromFacts(cfg, d, next, inner.at);
        var arcs := inner.arcs + rest.arcs;
        var n := |inner.arcs|;
        forall k | 0 <= k < |arcs| - 1 ensures InOrder(arcs[k], arcs[k + 1]) {
          if k + 1 < n {
            assert arcs[k] == inner.arcs[k] && arcs[k + 1] == inner.arcs[k + 1];
          } else if k + 1 == n {
            assert arcs[k] == inner.arcs[k] && ArcFits(inner.arcs[k], ring, cfg.hues, 0.0);
            assert arcs[k + 1] == rest.arcs[0] && next <= rest.arcs[0].ring.offset;
          } else {
            assert arcs[k] == rest.arcs[k - n] && arcs[k + 1] == rest.arcs[k - n + 1];
          }
        }
      }
    }
  }

  /** The rings from `offset` on fail exactly when the palette is empty and
      some acceptance draw they consumed was accepted. */
  lemma {:induction false} RingsFromFailure(cfg: Config, d: Streams, offset: real, at: Cursor)
    requires SpansInRange(d) && PicksInRange(d, |cfg.hues|) && StepsPositive(cfg.bounds)
    requires cfg.minOffset as real <= offset
    ensures var t := RingsFrom(cfg, d, offset, at);
            at.accept <= t.at.accept &&
            (t.failed <==> |cfg.hues| == 0 && Accepted(d, cfg.arcProbability, at.accept, t.at.accept) > 0)
    decreases RingsLeft(cfg, offset)
  {
    if offset < cfg.maxOffset as real {
      var ring := RingAt(cfg, offset);
      var next := offset + ring.thickness + ring.padding;
      RingsFromStep(cfg, d, offset, ring, next, at);
      var inner := ArcsFrom(ring, cfg.hues, cfg.arcProbability, d, 0.0, at);
      ArcsFromAccounting(ring, cfg.hues, cfg.arcProbability, d, 0.0, at);
      if !inner.failed {
        RingsFromFailure(cfg, d, next, inner.at);
        var rest := RingsFrom(cfg, d, next, inner.at);
        AcceptedSplit(d, cfg.arcProbability, at.accept, inner.at.accept, rest.at.accept);
      }
    }
  }

  /** The whole layout: its arcs are layout arcs in layout order, it spends
      one hue pick per arc and a span draw with each acceptance draw, and it
      fails exactly when the palette is empty and some acceptance draw was
      accepted; an empty palette draws nothing. */
  lemma LayoutFacts(cfg: Config, d: Streams, at: Cursor)
    requires SpansInRange(d) && PicksInRange(d, |cfg.hues|) && Terminates(cfg)
    ensures var t := Layout(cfg, d, at);
            (forall k :: 0 <= k < |t.arcs| ==> LayoutArc(cfg, t.arcs[k])) &&
            (forall k :: 0 <= k < |t.arcs| - 1 ==> InOrder(t.arcs[k], t.arcs[k + 1])) &&
            at.span <= t.at.span && t.at.accept - at.accept == t.at.span - at.span &&
            t.at.pick == at.pick + |t.arcs| &&
            (t.failed <==> |cfg.hues| == 0 && Accepted(d, cfg.arcProbability, at.accept, t.at.accept) > 0) &&
            (|cfg.hues| == 0 ==> t.arcs == [])
  {
    if cfg.minOffset < cfg.maxOffset {
      RingsFromFacts(cfg, d, cfg.minOffset as real, at);
      RingsFromOrdered(cfg, d, cfg.minOffset as real, at);
      RingsFromFailure(cfg, d, cfg.minOffset as real, at);
    }
  }

  /** A layout arc's ring keeps its parameters within their bounds, and its
      square is centred on the canvas's horizontal middle. */
  lemma LayoutArcBounds(cfg: Config, a: Arc)
    requires LayoutArc(cfg, a)
    ensures Between(a.ring.thickness, cfg.bounds.minThickness, cfg.bounds.maxThickness)
    ensures Between(a.ring.value, MIN_VALUE, MAX_VALUE) && Between(a.ring.sat, MIN_SAT, MAX_SAT)
    ensures Between(a.ring.padding, cfg.bounds.minPadding, cfg.bounds.maxPadding)
    ensures a.ring.left + (a.ring.right - a.ring.left) / 2.0 == cfg.width as real / 2.0
  {
  }

  /** Under StepsPositive, each ring's step to the next offset is at least
      the smaller of the two bound sums, hence positive, and its least
      angular advance per candidate is positive. */
  lemma RingStepPositive(cfg: Config, offset: real)
    requires StepsPositive(cfg.bounds) && cfg.minOffset as real <= offset < cfg.maxOffset as real
    ensures var r := RingAt(cfg, offset);
            r.thickness + r.padding >= MinRingStep(cfg.bounds) > 0.0 && MinAdvance(r.padding) > 0.0
  {
  }

  /** The square a ring is drawn on has half side
      `width / 2 - offset - thickness / 2`: it shrinks as the offset grows,
      and it is negative (right < left) once the offset passes
      `width / 2 - thickness / 2`. */
  lemma RingHalfSide(cfg: Config, offset: real)
    requires cfg.minOffset as real <= offset < cfg.maxOffset as real
    ensures var r := RingAt(cfg, offset);
            (r.right - r.left) / 2.0 == cfg.width as real / 2.0 - offset - r.thickness / 2.0
  {
  }

  /** When the thickness range is ordered and no wider than the offset range,
      a ring at a larger offset is drawn on a strictly smaller square: the
      walk moves inwards. */
  lemma SquaresShrinkInwards(cfg: Config, offset: real, later: real)
    requires cfg.minOffset as real <= offset < later < cfg.maxOffset as real
    requires 0.0 <= cfg.bounds.maxThickness - cfg.bounds.minThickness
                 <= (cfg.maxOffset - cfg.minOffset) as real
    ensures var a, b := RingAt(cfg, offset), RingAt(cfg, later);
            b.right - b.left < a.right - a.left
  {
    var lo, hi, bs := cfg.minOffset as real, cfg.maxOffset as real, cfg.bounds;
    RemapStepBound(offset, later, lo, hi, bs.maxThickness, bs.minThickness);
    RingHalfSide(cfg, offset);
    RingHalfSide(cfg, later);
  }

  /** At a larger offset (further in) a ring is at most as bright and at
      most as saturated, and, for bounds given in order, at most as thick and
      at most as widely padded. */
  lemma RingsFadeInwards(cfg: Config, offset: real, later: real)
    requires cfg.minOffset as real <= offset <= later < cfg.maxOffset as real
    ensures var a, b, bs := RingAt(cfg, offset), RingAt(cfg, later), cfg.bounds;
            b.value <= a.value && b.sat <= a.sat &&
            (bs.minThickness <= bs.maxThickness ==> b.thickness <= a.thickness) &&
            (bs.minPadding <= bs.maxPadding ==> b.padding <= a.padding)
  {
    var lo, hi, bs := cfg.minOffset as real, cfg.maxOffset as real, cfg.bounds;
    RemapMonotone(offset, later, lo, hi, bs.maxThickness, bs.minThickness);
    RemapMonotone(offset, later, lo, hi, MAX_VALUE, MIN_VALUE);
    RemapMonotone(offset, later, lo, hi, MAX_SAT, MIN_SAT);
    RemapMonotone(offset, later, lo, hi, bs.maxPadding, bs.minPadding);
  }

  // ---------------------------------------------------------------- configuration

  /** The offsets run symmetrically about zero. */
  lemma OffsetsSymmetric(width: int, height: int, hues: seq<real>,
                         minThickness: Option<real>, maxThickness: Option<real>,
                         minPadding: Option<real>, maxPadding: Option<real>, prob: real)
    ensures var cfg := MakeConfig(width, height, hues, minThickness, maxThickness, minPadding, maxPadding, prob);
            cfg.minOffset == -cfg.maxOffset
  {
  }

  /** There is a ring exactly when the long edge is at least 2. */
  lemma RingsExistIff(width: int, height: int, hues: seq<real>,
                      minThickness: Option<real>, maxThickness: Option<real>,
                      minPadding: Option<real>, maxPadding: Option<real>, prob: real)
    ensures var cfg := MakeConfig(width, height, hues, minThickness, maxThickness, minPadding, maxPadding, prob);
            cfg.minOffset < cfg.maxOffset <==> LongEdge(width, height) >= 2
  {
  }

  /** A degenerate canvas has no ring, so the layout draws nothing and uses
      no draws, whatever the bounds. */
  lemma DegenerateEdgeDrawsNothing(width: int, height: int, hues: seq<real>,
                                   minThickness: Option<real>, maxThickness: Option<real>,
                                   minPadding: Option<real>, maxPadding: Option<real>, prob: real,
                                   d: Streams, at: Cursor)
    requires SpansInRange(d) && PicksInRange(d, |hues|) && LongEdge(width, height) < 2
    ensures var cfg := MakeConfig(width, height, hues, minThickness, maxThickness, minPadding, maxPadding, prob);
            Terminates(cfg) && Layout(cfg, d, at) == Trace([], at, false)
  {
    RingsExistIff(width, height, hues, minThickness, maxThickness, minPadding, maxPadding, prob);
  }

  /** Omitted bounds default to 1% and 8% of the long edge for the
      thickness and 3% and 8% for the padding; these defaults always let the
      run terminate. */
  lemma DefaultsTerminate(width: int, height: int, hues: seq<real>, prob: real)
    ensures var cfg := MakeConfig(width, height, hues, None, None, None, None, prob);
            var l := LongEdge(width, height) as real;
            cfg.bounds == Bounds(l * 0.01, l * 0.08, l * 0.03, l * 0.08) && Terminates(cfg)
  {
    RingsExistIff(width, height, hues, None, None, None, None, prob);
  }

  // ---------------------------------------------------------------- counts

  /** A ring that does not fail tries exactly its CandidatesLeft candidates,
      one span draw each, and draws at most one arc per candidate. */
  lemma {:induction false} ArcsFromCandidates(ring: Ring, hues: seq<real>, prob: real, d: Streams,
                                              angle: real, at: Cursor)
    requires SpansInRange(d) && PicksInRange(d, |hues|) && MinAdvance(ring.padding) > 0.0
    ensures var t := ArcsFrom(ring, hues, prob, d, angle, at);
            at.span + |t.arcs| <= t.at.span &&
            (!t.failed ==> t.at.span == at.span + CandidatesLeft(ring.padding, d, angle, at.span))
    decreases CandidatesLeft(ring.padding, d, angle, at.span)
  {
    if angle < TOTAL_DEGREES {
      ArcsFromStep(ring, hues, prob, d, angle, at);
      var start := SEAM_ANGLE + angle + ring.padding;
      var next := start + d.spans(at.span) + ring.padding * GAP_FACTOR;
      var taken := at.(span := at.span + 1, accept := at.accept + 1);
      if d.accepts(at.accept) as real > prob {
        ArcsFromCandidates(ring, hues, prob, d, next, taken);
      } else if |hues| > 0 {
        ArcsFromCandidates(ring, hues, prob, d, next, taken.(pick := at.pick + 1));
      }
    }
  }

  /** The candidates from `angle` on number fewer than one more than the
      remaining turn divided by the least advance. */
  lemma {:induction false} CandidatesBound(padding: real, d: Streams, angle: real, span: nat)
    requires SpansInRange(d) && MinAdvance(padding) > 0.0
    ensures angle < TOTAL_DEGREES ==>
              (CandidatesLeft(padding, d, angle, span) as real) < (TOTAL_DEGREES - angle) / MinAdvance(padding) + 1.0
    ensures TOTAL_DEGREES <= angle ==> CandidatesLeft(padding, d, angle, span) == 0
    decreases CandidatesLeft(padding, d, angle, span)
  {
    if angle < TOTAL_DEGREES {
      var next := SEAM_ANGLE + angle + padding + d.spans(span) + padding * GAP_FACTOR;
      StepShrinks(TOTAL_DEGREES, angle, next, MinAdvance(padding));
      CandidatesBound(padding, d, next, span + 1);
    }
  }

  /** With a non-negative padding a ring tries at most 72 candidates (a full
      turn in steps of at least 5 degrees), so it draws at most 72 arcs. */
  lemma RingCandidatesAtMost72(ring: Ring, hues: seq<real>, prob: real, d: Streams, at: Cursor)
    requires SpansInRange(d) && PicksInRange(d, |hues|) && ring.padding >= 0.0
    ensures MinAdvance(ring.padding) > 0.0
    ensures CandidatesLeft(ring.padding, d, 0.0, at.span) <= 72
    ensures |ArcsFrom(ring, hues, prob, d, 0.0, at).arcs| <= 72
  {
    var m := MinAdvance(ring.padding);
    CandidatesBound(ring.padding, d, 0.0, at.span);
    DivAntitone(TOTAL_DEGREES, MIN_ANGLE_SIZE, m);
    assert TOTAL_DEGREES / MIN_ANGLE_SIZE == 72.0;
    ArcsFromCandidates(ring, hues, prob, d, 0.0, at);
    ArcsFromAccounting(ring, hues, prob, d, 0.0, at);
  }

  /** The rings from an offset inside the range number at most one more
      than the remaining range divided by the smaller ring step. */
  lemma {:induction false} RingsBound(cfg: Config, offset: real)
    requires StepsPositive(cfg.bounds) && cfg.minOffset as real <= offset < cfg.maxOffset as real
    ensures (RingsLeft(cfg, offset) as real) < (cfg.maxOffset as real - offset) / MinRingStep(cfg.bounds) + 1.0
    decreases RingsLeft(cfg, offset)
  {
    var ring := RingAt(cfg, offset);
    var next := offset + ring.thickness + ring.padding;
    StepShrinks(cfg.maxOffset as real, offset, next, MinRingStep(cfg.bounds));
    if next < cfg.maxOffset as real {
      RingsBound(cfg, next);
    }
  }
}
