/** Boxes and how much they overlap. Coordinates and scores are reals: rounding is not modelled. */
module Boxes {

  datatype Box = Box(x1: real, y1: real, x2: real, y2: real, score: real, votes: nat, scores: seq<real>)

  function Plain(x1: real, y1: real, x2: real, y2: real, score: real): Box {
    Box(x1, y1, x2, y2, score, 0, [])
  }

  function Max(a: real, b: real): real {
    if a < b then b else a
  }

  function Min(a: real, b: real): real {
    if b < a then b else a
  }

  // The length two spans have in common.
  function Shared(a1: real, a2: real, b1: real, b2: real): real {
    Max(0.0, Min(a2, b2) - Max(a1, b1))
  }

  function Area(b: Box): real {
    Max(0.0, b.x2 - b.x1) * Max(0.0, b.y2 - b.y1)
  }

  function Inter(a: Box, b: Box): real {
    Shared(a.x1, a.x2, b.x1, b.x2) * Shared(a.y1, a.y2, b.y1, b.y2)
  }

  function Iou(a: Box, b: Box): real {
    var union := Area(a) + Area(b) - Inter(a, b);
    if union > 0.0 then Inter(a, b) / union else 0.0
  }

  function CoveredFraction(inner: Box, outer: Box): real {
    if Area(inner) > 0.0 then Inter(inner, outer) / Area(inner) else 0.0
  }

  lemma ScaledOrder(a: real, b: real, size: real)
    requires a <= b && size >= 0.0
    ensures a * size <= b * size
  {
  }

  lemma ProductMonotone(a: real, b: real, c: real, d: real)
    requires 0.0 <= a <= c && 0.0 <= b <= d
    ensures 0.0 <= a * b <= c * d
  {
    assert a * b <= a * d;
    assert a * d <= c * d;
  }

  lemma QuotientInUnit(a: real, b: real)
    requires 0.0 <= a <= b && b > 0.0
    ensures 0.0 <= a / b <= 1.0
  {
    assert (a / b) * b == a;
  }

  lemma SharedInLength(a1: real, a2: real, b1: real, b2: real)
    ensures 0.0 <= Shared(a1, a2, b1, b2) <= Max(0.0, a2 - a1)
    ensures Shared(a1, a2, b1, b2) == Shared(b1, b2, a1, a2)
  {
  }

  lemma InterInFirst(a: Box, b: Box)
    ensures 0.0 <= Inter(a, b) <= Area(a)
  {
    SharedInLength(a.x1, a.x2, b.x1, b.x2);
    SharedInLength(a.y1, a.y2, b.y1, b.y2);
    ProductMonotone(Shared(a.x1, a.x2, b.x1, b.x2), Shared(a.y1, a.y2, b.y1, b.y2),
                    Max(0.0, a.x2 - a.x1), Max(0.0, a.y2 - a.y1));
  }

  lemma InterSymmetric(a: Box, b: Box)
    ensures Inter(a, b) == Inter(b, a)
  {
    SharedInLength(a.x1, a.x2, b.x1, b.x2);
    SharedInLength(a.y1, a.y2, b.y1, b.y2);
  }

  lemma InterInBoth(a: Box, b: Box)
    ensures 0.0 <= Inter(a, b) <= Area(a) && Inter(a, b) <= Area(b)
  {
    InterInFirst(a, b);
    InterInFirst(b, a);
    InterSymmetric(a, b);
  }

  // The overlap is a fraction and does not depend on the order of the boxes.
  lemma IouIsAFraction(a: Box, b: Box)
    ensures 0.0 <= Iou(a, b) <= 1.0
  {
    InterInBoth(a, b);
    var union := Area(a) + Area(b) - Inter(a, b);
    if union > 0.0 {
      QuotientInUnit(Inter(a, b), union);
    }
  }

  lemma IouSymmetric(a: Box, b: Box)
    ensures Iou(a, b) == Iou(b, a)
  {
    assert Shared(a.x1, a.x2, b.x1, b.x2) == Shared(b.x1, b.x2, a.x1, a.x2);
    assert Shared(a.y1, a.y2, b.y1, b.y2) == Shared(b.y1, b.y2, a.y1, a.y2);
  }

  lemma CoverIsAFraction(inner: Box, outer: Box)
    ensures 0.0 <= CoveredFraction(inner, outer) <= 1.0
  {
    InterInBoth(inner, outer);
    if Area(inner) > 0.0 {
      QuotientInUnit(Inter(inner, outer), Area(inner));
    }
  }
}
