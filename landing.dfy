/** The landing page: each listed provider is enriched with the number of
    its reviews and their average rating rendered to one decimal, and the
    search box navigates only for a non-blank term. */
module Landing {
  import opened Maybe
  import opened JsText
  import opened Records

  /** A provider row as the landing query returns it: the row itself and the
      `rating` of each of its reviews (`reviews (rating)`), or no list. */
  datatype ListedProvider = ListedProvider(record: ProviderRecord, reviews: Option<seq<int>>)

  /** `{ ...p, avgRating, totalReviews }` */
  datatype EnrichedProvider = EnrichedProvider(provider: ListedProvider, avgRating: string, totalReviews: nat)

  /** The average shown for a provider without reviews. */
  const NoRating := "0.0"

  function Abs(x: int): nat {
    if x < 0 then -x else x
  }

  /** `ratings.reduce((acc, r) => acc + r, 0)`, folding from the left; star
      ratings in 1..5 add up to between one and five per rating. */
  function Sum(ratings: seq<int>): (total: int)
    ensures (forall i :: 0 <= i < |ratings| ==> 1 <= ratings[i] <= 5) ==>
      |ratings| <= total <= 5 * |ratings|
  {
    if ratings == [] then 0 else Sum(ratings[..|ratings| - 1]) + ratings[|ratings| - 1]
  }

  /** `p.reviews?.reduce(...) || 0`: 0 without reviews, and for ratings in
      1..5 between the number of reviews and five times that number. */
  function RatingTotal(p: ListedProvider): (total: int)
    ensures ReviewCount(p) == 0 ==> total == 0
    ensures p.reviews.Some? && (forall i :: 0 <= i < |p.reviews.value| ==> 1 <= p.reviews.value[i] <= 5) ==>
      ReviewCount(p) <= total <= 5 * ReviewCount(p)
  {
    if p.reviews.Some? then Sum(p.reviews.value) else 0
  }

  /** `p.reviews?.length || 0`: 0 exactly when the list is missing or empty. */
  function ReviewCount(p: ListedProvider): (count: nat)
    ensures count == 0 <==> p.reviews.None? || p.reviews.value == []
    ensures p.reviews.Some? ==> count == |p.reviews.value|
  {
    if p.reviews.Some? then |p.reviews.value| else 0
  }

  /** The magnitude of `total / count` in tenths, rounded to the nearest
      tenth with halves rounded up: `toFixed(1)`'s rounding rule, applied
      here to the exact quotient. */
  function RoundedTenths(total: int, count: nat): (t: nat)
    requires count > 0
    ensures 2 * t * count <= 20 * Abs(total) + count < 2 * t * count + 2 * count
  {
    var n, d := 20 * Abs(total) + count, 2 * count;
    assert n == (n / d) * d + n % d;
    n / d
  }

  /** A number of tenths written with one decimal, `-` in front for a
      negative quotient (as `toFixed` does, even when it rounds to zero). */
  function FormatTenths(negative: bool, t: nat): string {
    (if negative then "-" else "") + NatToDecimal(t / 10) + "." + [DigitChar(t % 10)]
  }

  /** `s` is a number of tenths `t` written with one decimal: whole digits
      without a leading zero (a lone `0` is allowed), a point, and the tenths
      digit. Exactly one string does this for each `t`. */
  predicate ReadsAsTenths(s: string, t: nat) {
    |s| >= 3 && s[|s| - 2] == '.' && IsDigit(s[|s| - 1]) &&
    var whole := s[..|s| - 2];
    (forall i :: 0 <= i < |whole| ==> IsDigit(whole[i])) &&
    (whole[0] == '0' ==> |whole| == 1) &&
    ParseDecimal(whole) * 10 + DigitValue(s[|s| - 1]) == t
  }

  /** `p.reviews?.length ? (total / p.reviews.length).toFixed(1) : "0.0"`:
      "0.0" without reviews; otherwise the rounded magnitude of the average
      written with one decimal, after a `-` when the total is negative. */
  function AvgRating(p: ListedProvider): (avg: string)
    ensures ReviewCount(p) == 0 ==> avg == NoRating
    ensures ReviewCount(p) > 0 && RatingTotal(p) >= 0 ==>
      ReadsAsTenths(avg, RoundedTenths(RatingTotal(p), ReviewCount(p)))
    ensures ReviewCount(p) > 0 && RatingTotal(p) < 0 ==>
      |avg| > 0 && avg[0] == '-' && ReadsAsTenths(avg[1..], RoundedTenths(RatingTotal(p), ReviewCount(p)))
  {
    var count := ReviewCount(p);
    if count == 0 then NoRating
    else
      FormatTenthsReadsBack(RoundedTenths(RatingTotal(p), count));
      FormatTenths(RatingTotal(p) < 0, RoundedTenths(RatingTotal(p), count))
  }

  function Enrich(p: ListedProvider): EnrichedProvider {
    EnrichedProvider(p, AvgRating(p), ReviewCount(p))
  }

  /** `data.map(p => ...)`: one enriched entry per provider, in order, each
      holding the provider unchanged. */
  function FormattedProviders(providers: seq<ListedProvider>): (r: seq<EnrichedProvider>)
    ensures |r| == |providers|
    ensures forall i :: 0 <= i < |r| ==>
      r[i].provider == providers[i] &&
      r[i].totalReviews == ReviewCount(providers[i]) &&
      r[i].avgRating == AvgRating(providers[i])
  {
    seq(|providers|, i requires 0 <= i < |providers| => Enrich(providers[i]))
  }

  // ---------------------------------------------------------------------------
  // Properties of the aggregate
  // ---------------------------------------------------------------------------

  /** The rendering of a non-negative number of tenths reads back as that
      number: digits, a point, and the tenths digit. */
  lemma FormatTenthsReadsBack(t: nat)
    ensures ReadsAsTenths(FormatTenths(false, t), t)
    ensures FormatTenths(true, t) == "-" + FormatTenths(false, t)
  {
    var s := FormatTenths(false, t);
    var whole := NatToDecimal(t / 10);
    assert s == whole + "." + [DigitChar(t % 10)];
    assert s[..|s| - 2] == whole;
    DecimalRoundTrip(t / 10);
  }

  /** The one-decimal rendering is the only string that reads as its
      number of tenths. */
  lemma ReadsAsTenthsOnlyFormat(s: string, t: nat)
    requires ReadsAsTenths(s, t)
    ensures s == FormatTenths(false, t)
  {
    var whole := s[..|s| - 2];
    var last := s[|s| - 1];
    CanonicalDecimal(whole);
    assert ParseDecimal(whole) == t / 10 && DigitValue(last) == t % 10;
    assert last == DigitChar(t % 10);
    assert s == whole + "." + [last];
  }

  /** With no review list, or an empty one, the count and the total are 0
      and the average is "0.0". */
  lemma NoReviewsRating(p: ListedProvider)
    requires p.reviews.None? || p.reviews.value == []
    ensures ReviewCount(p) == 0 && RatingTotal(p) == 0 && AvgRating(p) == NoRating
  {
  }

  lemma {:induction false} SumBounds(ratings: seq<int>, lo: int, hi: int)
    requires forall i :: 0 <= i < |ratings| ==> lo <= ratings[i] <= hi
    ensures lo * |ratings| <= Sum(ratings) <= hi * |ratings|
  {
    if ratings != [] {
      var init := ratings[..|ratings| - 1];
      SumBounds(init, lo, hi);
      MulSucc(lo, |init|);
      MulSucc(hi, |init|);
    }
  }

  lemma MulSucc(a: int, n: nat)
    ensures a * (n + 1) == a * n + a
  {
  }

  lemma MulMonotone(a: int, b: int, c: nat)
    requires a <= b
    ensures a * c <= b * c
  {
    assert b * c - a * c == (b - a) * c;
  }

  /** An average of values in 1..5 rounds to between 1.0 and 5.0. */
  lemma TenthsInRange(total: int, count: nat)
    requires count > 0 && count <= total <= 5 * count
    ensures 10 <= RoundedTenths(total, count) <= 50
  {
    var t := RoundedTenths(total, count);
    if t < 10 {
      MulMonotone(t, 9, count);
    }
    if t > 50 {
      MulMonotone(51, t, count);
    }
  }

  /** A rendering of at least one whole unit is not "0.0". */
  lemma FormatTenthsNotZero(t: nat)
    requires t >= 10
    ensures FormatTenths(false, t) != NoRating
  {
    FormatTenthsReadsBack(t);
  }

  /** With at least one review and every rating in 1..5, the average lies
      between 1.0 and 5.0, so it is never the "0.0" shown for no reviews. */
  lemma RatedProviderAverage(p: ListedProvider)
    requires p.reviews.Some? && p.reviews.value != []
    requires forall i :: 0 <= i < |p.reviews.value| ==> 1 <= p.reviews.value[i] <= 5
    ensures RatingTotal(p) >= ReviewCount(p) > 0
    ensures 10 <= RoundedTenths(RatingTotal(p), ReviewCount(p)) <= 50
    ensures AvgRating(p) == FormatTenths(false, RoundedTenths(RatingTotal(p), ReviewCount(p)))
    ensures AvgRating(p) != NoRating
  {
    SumBounds(p.reviews.value, 1, 5);
    TenthsInRange(RatingTotal(p), ReviewCount(p));
    FormatTenthsNotZero(RoundedTenths(RatingTotal(p), ReviewCount(p)));
  }

  /** Reviews rated 5, 4 and 5: three reviews, average "4.7". */
  lemma ThreeReviewsExample(record: ProviderRecord)
    ensures ReviewCount(ListedProvider(record, Some([5, 4, 5]))) == 3
    ensures AvgRating(ListedProvider(record, Some([5, 4, 5]))) == "4.7"
  {
    var p := ListedProvider(record, Some([5, 4, 5]));
    assert Sum([5, 4, 5]) == 14 by {
      assert [5, 4, 5][..2] == [5, 4] && [5, 4][..1] == [5] && [5][..0] == [];
    }
    assert RoundedTenths(14, 3) == 47;
  }

  // ---------------------------------------------------------------------------
  // The search box
  // ---------------------------------------------------------------------------

  /** `handleSearch`: the query navigated to (`/search?q=` + the term as
      typed), or nothing when the term trims to empty. */
  function SearchNavigation(term: string): (query: Option<string>)
    ensures query.Some? <==> exists i :: 0 <= i < |term| && !IsWhitespace(term[i])
    ensures query.Some? ==> query.value == term
  {
    BlankIffAllWhitespace(term);
    if !IsBlank(term) then Some(term) else None
  }
}
