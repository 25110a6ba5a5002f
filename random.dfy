/** The seeded pseudo-random generator, made explicit: the values a run
    receives for each kind of draw are given as infinite streams, and a cursor
    records how many draws of each kind have been consumed. The one generator
    the draws of all three kinds share is not modelled: which values a seed
    puts into each stream depends on the order of the draws of a run. */
module Random {

  /** The draws a run receives: the i-th angular span, the i-th acceptance
      draw and the i-th hue pick. */
  datatype Streams = Streams(spans: nat -> real, accepts: nat -> int, picks: nat -> int)

  /** How many values of each stream have been consumed. */
  datatype Cursor = Cursor(span: nat, accept: nat, pick: nat)

  class Rng {
    const draws: Streams
    var at: Cursor

    constructor (draws: Streams)
      ensures this.draws == draws && at == Cursor(0, 0, 0)
    {
      this.draws := draws;
      at := Cursor(0, 0, 0);
    }

    /** Draws the next uniformly distributed angular span. */
    method UniformSpan() returns (x: real)
      modifies this
      ensures x == draws.spans(old(at.span))
      ensures at == old(at).(span := old(at.span) + 1)
    {
      x := draws.spans(at.span);
      at := at.(span := at.span + 1);
    }

    /** Draws the next integer acceptance value. */
    method AcceptanceDraw() returns (n: int)
      modifies this
      ensures n == draws.accepts(old(at.accept))
      ensures at == old(at).(accept := old(at.accept) + 1)
    {
      n := draws.accepts(at.accept);
      at := at.(accept := at.accept + 1);
    }

    /** Draws an integer in [0, high). An empty range is an error: nothing is
        drawn and `ok` is false. */
    method Pick(high: int) returns (ok: bool, n: int)
      modifies this
      ensures ok == (0 < high)
      ensures ok ==> n == draws.picks(old(at.pick)) && at == old(at).(pick := old(at.pick) + 1)
      ensures !ok ==> at == old(at)
    {
      ok := 0 < high;
      n := 0;
      if ok {
        n := draws.picks(at.pick);
        at := at.(pick := at.pick + 1);
      }
    }
  }
}
