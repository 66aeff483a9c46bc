/** A uniform integer from 64-bit draws, by rejection. */
module Sampler {
  import opened Wrappers

  const DRAWS := 0x1_0000_0000_0000_0000

  /** The integers of 64 bits, signed. */
  predicate IsInt64(n: int) {
    -0x8000_0000_0000_0000 <= n <= 0x7FFF_FFFF_FFFF_FFFF
  }

  function Span(lo: int, hi: int): (span: int)
    requires IsInt64(lo) && IsInt64(hi) && lo <= hi
    ensures 1 <= span <= DRAWS
  {
    hi - lo + 1
  }

  /** Draws below the zone are accepted. */
  function Zone(span: int): int
    requires 1 <= span <= DRAWS
  {
    DRAWS - DRAWS % span
  }

  /** What an accepted draw stands for. */
  function Value(lo: int, span: int, x: int): int
    requires span >= 1
  {
    lo + x % span
  }

  // ----- quotients by a variable -----

  lemma {:induction false} Quotient(q: nat, span: int, r: int)
    requires 0 <= r < span
    ensures (q * span + r) / span == q && (q * span + r) % span == r
  {
    var x := q * span + r;
    var d := x / span - q;
    assert x == span * (x / span) + x % span;
    assert span * (x / span) - q * span == span * d;
    SmallMultiple(span, d);
  }

  lemma SmallMultiple(span: int, d: int)
    requires span >= 1 && -span < span * d < span
    ensures d == 0
  {
    assert span * -d == -(span * d);
    if d >= 1 {
      Grows(span, d);
    } else if d <= -1 {
      Grows(span, -d);
    }
  }

  lemma Grows(a: int, b: int)
    requires a >= 1 && b >= 1
    ensures a * b >= a
  {
    assert a * b == a * (b - 1) + a;
    assert a * (b - 1) >= 0;
  }

  // ----- uniformity -----

  /** The draws below `limit` that stand for a value. */
  ghost function DrawsFor(limit: int, lo: int, span: int, v: int): set<int>
    requires span >= 1
  {
    set x | 0 <= x < limit && Value(lo, span, x) == v
  }

  /** One more block of draws has one more draw for the value. */
  lemma NextBlock(start: int, q: nat, lo: int, span: int, v: int)
    requires span >= 1 && lo <= v < lo + span && start == q * span
    ensures DrawsFor(start + span, lo, span, v) == DrawsFor(start, lo, span, v) + {start + v - lo}
    ensures start >= 0 && start + v - lo !in DrawsFor(start, lo, span, v)
  {
    forall x | start <= x < start + span ensures x % span == x - start {
      Quotient(q, span, x - start);
    }
    assert q * span >= 0;
  }

  /** Below `q` times the span every value of the range has `q` draws. */
  lemma {:induction false} CountDraws(q: nat, lo: int, span: int, v: int)
    requires span >= 1 && lo <= v < lo + span
    ensures |DrawsFor(q * span, lo, span, v)| == q
  {
    hide DrawsFor;
    if q == 0 {
      NoDraws(lo, span, v);
    } else {
      CountDraws(q - 1, lo, span, v);
      NextBlock((q - 1) * span, q - 1, lo, span, v);
      assert q * span == (q - 1) * span + span;
    }
  }

  lemma NoDraws(lo: int, span: int, v: int)
    requires span >= 1
    ensures DrawsFor(0, lo, span, v) == {}
  {
  }

  lemma ZoneIsWhole(span: int)
    requires 1 <= span <= DRAWS
    ensures Zone(span) == (DRAWS / span) * span
    ensures Zone(span) / span == DRAWS / span
  {
    assert DRAWS == span * (DRAWS / span) + DRAWS % span;
    Quotient(DRAWS / span, span, 0);
  }

  /** For every range in 64 bits, the full one included: each integer of it has the same number of accepted
      draws, and every accepted draw stands for one of them. */
  lemma Uniform(lo: int, hi: int)
    requires IsInt64(lo) && IsInt64(hi) && lo <= hi
    ensures var span := Span(lo, hi);
      && (forall v :: lo <= v <= hi ==> |DrawsFor(Zone(span), lo, span, v)| == Zone(span) / span)
      && (forall x :: 0 <= x < Zone(span) ==> lo <= Value(lo, span, x) <= hi)
  {
    var span := Span(lo, hi);
    ZoneIsWhole(span);
    forall v | lo <= v <= hi ensures |DrawsFor(Zone(span), lo, span, v)| == Zone(span) / span {
      CountDraws(DRAWS / span, lo, span, v);
    }
  }

  /** More than half of the 64-bit draws are accepted. */
  lemma MoreThanHalf(span: int)
    requires 1 <= span <= DRAWS
    ensures 0x8000_0000_0000_0000 < Zone(span) <= 0x1_0000_0000_0000_0000
  {
    if span > DRAWS / 2 && span < DRAWS {
      Quotient(1, span, DRAWS - span);
    } else if span == DRAWS {
      Quotient(1, span, 0);
    }
  }

  /** The loop over the draws: the first accepted one decides; without one there is no result. */
  method RandomInt(lo: int, hi: int, draws: seq<int>) returns (n: Option<int>)
    requires IsInt64(lo) && IsInt64(hi) && lo <= hi
    requires forall i :: 0 <= i < |draws| ==> 0 <= draws[i] < DRAWS
    ensures n.None? <==> forall i :: 0 <= i < |draws| ==> draws[i] >= Zone(Span(lo, hi))
    ensures n.Some? ==> lo <= n.value <= hi && IsInt64(n.value)
    ensures n.Some? ==> exists k ::
      0 <= k < |draws| && draws[k] in DrawsFor(Zone(Span(lo, hi)), lo, Span(lo, hi), n.value)
      && forall i :: 0 <= i < k ==> draws[i] >= Zone(Span(lo, hi))
  {
    var span := hi - lo + 1;
    var zone := DRAWS - DRAWS % span;
    for i := 0 to |draws|
      invariant forall j :: 0 <= j < i ==> draws[j] >= zone
    {
      var x := draws[i];
      if x < zone {
        return Some(lo + x % span);
      }
    }
    n := None;
  }
}
