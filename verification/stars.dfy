/** The star-rating strip drawn on every movie card and on the detail page:
    full stars for the whole part of the rating, one half star when the rating
    is not a whole number, and empty stars up to ten, where the empty count is
    ten minus the rating rounded UP. Both copies of the renderer in the
    application are identical and are modelled once. */
module Stars {

  /** JavaScript's `Math.floor`. */
  function Floor(r: real): int {
    r.Floor
  }

  /** JavaScript's `Math.ceil`, through floor of the negation. */
  function Ceil(r: real): (c: int)
    ensures c as real - 1.0 < r <= c as real
  {
    -((-r).Floor)
  }

  /** `r % 1 !== 0` in JavaScript: the remainder keeps the sign of `r`, and
      `-0 === 0`, so the test is true exactly when `r` is not a whole number,
      whatever its sign. */
  predicate HasFraction(r: real) {
    r.Floor as real != r
  }

  /** A loop `for (i = 0; i < n; i++)` runs `max(0, n)` times. */
  function Iterations(n: int): nat {
    if n < 0 then 0 else n
  }

  /** What the renderer emits, counted by kind. */
  datatype StarCounts = StarCounts(full: nat, hasHalf: bool, empty: nat) {
    /** Number of star icons drawn. */
    function Slots(): nat {
      full + (if hasHalf then 1 else 0) + empty
    }
  }

  /** One icon of the strip. */
  datatype Star = Full | Half | Empty

  /** The counts of `renderStars(rating)`. */
  function Counts(rating: real): (c: StarCounts)
    // full stars: the whole part of a non-negative rating, none below zero
    ensures rating >= 0.0 ==> c.full as real <= rating < c.full as real + 1.0
    ensures rating < 0.0 ==> c.full == 0
    // one half star exactly for a rating with a fractional part
    ensures c.hasHalf <==> Floor(rating) as real < rating
    // empty stars: ten minus the rating rounded up, none above ten
    ensures rating <= 10.0 ==> c.empty as real <= 10.0 - rating < c.empty as real + 1.0
    ensures rating > 10.0 ==> c.empty == 0
  {
    StarCounts(Iterations(Floor(rating)), HasFraction(rating), Iterations(10 - Ceil(rating)))
  }

  /** `renderStars` itself: the three loops of the source, emitting icons in
      order. */
  method RenderStars(rating: real) returns (stars: seq<Star>)
    ensures |stars| == Counts(rating).Slots()
    ensures forall i :: 0 <= i < Counts(rating).full ==> stars[i] == Full
    ensures Counts(rating).hasHalf ==> stars[Counts(rating).full] == Half
    ensures forall i :: Counts(rating).Slots() - Counts(rating).empty <= i < |stars| ==> stars[i] == Empty
    // at most one half star, and only where the counts put it
    ensures forall i :: 0 <= i < |stars| && stars[i] == Half ==> Counts(rating).hasHalf && i == Counts(rating).full
  {
    var fullStars := Floor(rating);
    var hasHalfStar := HasFraction(rating);
    stars := [];
    var i := 0;
    while i < fullStars
      invariant 0 <= i == |stars|
      invariant fullStars >= 0 ==> i <= fullStars
      invariant fullStars < 0 ==> i == 0
      invariant forall k :: 0 <= k < i ==> stars[k] == Full
    {
      stars := stars + [Full];
      i := i + 1;
    }
    var prefix := |stars|;
    if hasHalfStar {
      stars := stars + [Half];
    }
    var head := |stars|;
    var emptyStars := 10 - Ceil(rating);
    i := 0;
    while i < emptyStars
      invariant 0 <= i && |stars| == head + i
      invariant emptyStars >= 0 ==> i <= emptyStars
      invariant emptyStars < 0 ==> i == 0
      invariant forall k :: 0 <= k < prefix ==> stars[k] == Full
      invariant hasHalfStar ==> stars[prefix] == Half
      invariant forall k :: head <= k < |stars| ==> stars[k] == Empty
    {
      stars := stars + [Empty];
      i := i + 1;
    }
  }

  /** A half star is drawn exactly when rounding down and rounding up
      disagree, and then they differ by one. */
  lemma HalfIffFloorBelowCeil(rating: real)
    ensures HasFraction(rating) <==> Ceil(rating) == Floor(rating) + 1
    ensures !HasFraction(rating) <==> Ceil(rating) == Floor(rating)
  {
  }

  /** The strip has exactly ten slots precisely for ratings in [0, 10];
      a rating outside that range (the add form does not enforce its
      0-10 bounds) draws more than ten icons. */
  lemma TenSlotsIffInRange(rating: real)
    ensures Counts(rating).Slots() == 10 <==> 0.0 <= rating <= 10.0
    ensures !(0.0 <= rating <= 10.0) ==> Counts(rating).Slots() > 10
  {
  }
}
