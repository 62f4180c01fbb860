/**
 The star row of StarRating.jsx: `floor(rating)` full stars, a half star when the
 remainder `rating % 1` is at least one half, then `5 - full - half` empty stars.
 Each `for` loop runs zero times when its count is zero or negative.
 */
module StarRating {
  import Pricing

  datatype Star = Full | Half | Empty

  /** Truncation towards zero, as JavaScript's `%` uses it. */
  function Trunc(x: real): int
  {
    if x >= 0.0 then x.Floor else -((-x).Floor)
  }

  /** `x % 1`: the remainder takes the sign of x. */
  function Rem1(x: real): (r: real)
    ensures x >= 0.0 ==> r == x - (x.Floor as real) && 0.0 <= r < 1.0
    ensures x < 0.0 ==> -1.0 < r <= 0.0
  {
    x - (Trunc(x) as real)
  }

  /** `Math.floor(rating)`. */
  function FullStars(rating: real): (r: int)
    ensures r as real <= rating < r as real + 1.0
  {
    rating.Floor
  }

  /** `rating % 1 >= 0.5`. */
  function HalfStar(rating: real): (b: bool)
    ensures rating >= 0.0 ==> (b <==> rating - (rating.Floor as real) >= 0.5)
    ensures rating < 0.0 ==> !b
  {
    Rem1(rating) >= 0.5
  }

  /** `5 - fullStars - (halfStar ? 1 : 0)`: for a non-negative rating, five less
      the rating rounded to the nearest whole star. */
  function EmptyStars(rating: real): (r: int)
    ensures rating >= 0.0 ==> r == 5 - Pricing.MathRound(rating)
    ensures 0.0 <= rating <= 5.0 ==> 0 <= r <= 5
  {
    5 - FullStars(rating) - (if HalfStar(rating) then 1 else 0)
  }

  /** How many times `for (let i = 0; i < n; i++)` runs. */
  function Times(n: int): nat
  {
    if n > 0 then n else 0
  }

  /** The stars pushed by one `for` loop. */
  function Repeat(star: Star, n: int): (r: seq<Star>)
    ensures |r| == Times(n)
    ensures forall i :: 0 <= i < |r| ==> r[i] == star
    decreases Times(n)
  {
    if n <= 0 then [] else [star] + Repeat(star, n - 1)
  }

  /** The rendered row: full stars, at most one half star, then empty stars. */
  function Stars(rating: real): (r: seq<Star>)
    ensures |r| == Times(FullStars(rating)) + (if HalfStar(rating) then 1 else 0) + Times(EmptyStars(rating))
    ensures forall i :: 0 <= i < |r| ==> (r[i] == Full <==> i < Times(FullStars(rating)))
    ensures forall i :: 0 <= i < |r| ==> (r[i] == Half <==> HalfStar(rating) && i == Times(FullStars(rating)))
  {
    Repeat(Full, FullStars(rating)) + (if HalfStar(rating) then [Half] else []) + Repeat(Empty, EmptyStars(rating))
  }

  /** A rating from 0 to 5 always renders exactly five stars. */
  lemma FiveStarsInRange(rating: real)
    requires 0.0 <= rating <= 5.0
    ensures |Stars(rating)| == 5
  {
    var full := FullStars(rating);
    assert 0 <= full <= 5;
    if full == 5 {
      assert rating == 5.0;
      assert !HalfStar(rating);
    }
  }

  /** For a non-negative rating the full stars count `floor(rating)`, and a half
      star shows exactly when the fractional part is at least one half. */
  lemma StarCounts(rating: real)
    requires rating >= 0.0
    ensures Times(FullStars(rating)) == rating.Floor
    ensures Half in Stars(rating) <==> rating - (rating.Floor as real) >= 0.5
  {
    var r := Stars(rating);
    if HalfStar(rating) {
      assert r[rating.Floor] == Half;
    }
  }

  /** A rating above 5 with a half renders more than five stars, and a negative
      rating renders no full star but more than five empty ones. */
  lemma OutOfRangeRatings()
    ensures |Stars(5.5)| == 6
    ensures |Stars(-0.5)| == 6 && Full !in Stars(-0.5)
  {
    assert FullStars(5.5) == 5;
    assert Rem1(5.5) == 0.5;
    assert FullStars(-0.5) == -1;
    assert Trunc(-0.5) == 0;
    var r := Stars(-0.5);
    assert forall i :: 0 <= i < |r| ==> r[i] != Full;
  }
}
