/** The star-rating widget: a row of `maxRating` stars, the first `rating` of them filled,
    and the value a click on a star reports. It holds no state; it is the only place
    rating values are produced. */
module StarRating {
  import opened Common

  const DefaultMaxRating: int := 5

  datatype Star = Star(value: int, filled: bool)

  /** `Array.from({ length: maxRating })` has no elements for a negative length. */
  function StarCount(maxRating: int): nat {
    if maxRating < 0 then 0 else maxRating
  }

  /** The stars as rendered: star `i` carries the value `i + 1` and is filled when that
      value does not exceed the rating, so the filled stars form a prefix of the row. */
  function Stars(rating: int, maxRating: int): (stars: seq<Star>)
    ensures |stars| == StarCount(maxRating)
    ensures forall i :: 0 <= i < |stars| ==> stars[i].value == i + 1 && (stars[i].filled <==> i + 1 <= rating)
    ensures forall i, j :: 0 <= i < j < |stars| && stars[j].filled ==> stars[i].filled
  {
    seq(StarCount(maxRating), i => Star(i + 1, i + 1 <= rating))
  }

  function FilledCount(stars: seq<Star>): nat {
    if stars == [] then 0 else (if stars[0].filled then 1 else 0) + FilledCount(stars[1..])
  }

  function Clamp(x: int, lo: int, hi: int): int
    requires lo <= hi
  {
    if x < lo then lo else if x > hi then hi else x
  }

  lemma {:induction false} FilledCountOfRow(stars: seq<Star>, first: int, rating: int)
    requires forall i :: 0 <= i < |stars| ==> stars[i] == Star(first + i, first + i <= rating)
    ensures FilledCount(stars) == Clamp(rating - first + 1, 0, |stars|)
  {
    if stars != [] {
      FilledCountOfRow(stars[1..], first + 1, rating);
    }
  }

  /** The number of filled stars is the rating, cut to the range [0, maxRating]. */
  lemma FilledCountIsRating(rating: int, maxRating: int)
    ensures FilledCount(Stars(rating, maxRating)) == Clamp(rating, 0, StarCount(maxRating))
    ensures 0 <= rating <= maxRating ==> FilledCount(Stars(rating, maxRating)) == rating
  {
    FilledCountOfRow(Stars(rating, maxRating), 1, rating);
  }

  /** A higher rating never shows fewer filled stars. */
  lemma FilledCountMonotone(r1: int, r2: int, maxRating: int)
    requires r1 <= r2
    ensures FilledCount(Stars(r1, maxRating)) <= FilledCount(Stars(r2, maxRating))
  {
    FilledCountIsRating(r1, maxRating);
    FilledCountIsRating(r2, maxRating);
  }

  /** The value a click on star `index` reports to `onRatingChange`: nothing when the
      widget is read-only or has no callback, otherwise the star's value. */
  function Click(index: nat, maxRating: int, readonly: bool, hasCallback: bool): (reported: Option<int>)
    requires index < StarCount(maxRating)
    ensures reported.Some? ==> 1 <= reported.value <= maxRating
    ensures readonly ==> reported.None?
    ensures !readonly && hasCallback ==> reported.Some?
    ensures reported.Some? ==> reported.value == Stars(0, maxRating)[index].value
  {
    if !readonly && hasCallback then Some(index + 1) else None
  }
}
