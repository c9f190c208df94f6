/** The provider dashboard: loading the profile and its reviews, deleting a
    review, and the values the page derives for display (greeting, partner
    id, stat cards and the fallbacks of the business information block). */
module Dashboard {
  import opened Maybe
  import opened JsText
  import opened Seqs
  import opened Records

  const DefaultGreeting := "Mitra"
  const PartnerIdPrefix := "#PL-"

  /** The three stat cards: a fixed impression count, the number of reviews
      and the rating shown. */
  datatype StatCards = StatCards(impressions: string, reviewCount: nat, rating: string)

  // ---------------------------------------------------------------------------
  // Display derivations
  // ---------------------------------------------------------------------------

  /** `profile.name?.split(' ')[0] || 'Mitra'`: the text before the first
      space, or "Mitra" when that is empty or there is no name. */
  function Greeting(name: Option<string>): (g: string)
    ensures name.None? || name.value == [] || name.value[0] == ' ' ==> g == DefaultGreeting
    ensures name.Some? && name.value != [] && name.value[0] != ' ' ==>
      g != [] && ' ' !in g && StartsWith(name.value, g) &&
      (|g| == |name.value| || name.value[|g|] == ' ')
  {
    Or(if name.Some? then Some(Split(name.value, ' ')[0]) else None, DefaultGreeting)
  }

  function Min(a: nat, b: nat): nat {
    if a <= b then a else b
  }

  /** `#PL-${profile.user_id?.slice(0, 8).toUpperCase()}`: the prefix and the
      first (up to) eight characters of the user id upper-cased; a missing id
      renders as `undefined`. */
  function PartnerId(userId: Option<string>): (r: string)
    ensures |r| >= 4 && r[..4] == PartnerIdPrefix
    ensures userId.None? ==> r == PartnerIdPrefix + "undefined"
    ensures userId.Some? ==>
      var n := Min(8, |userId.value|);
      |r| == 4 + n && forall k :: 0 <= k < n ==> r[4 + k] == UpperChar(userId.value[k])
  {
    PartnerIdPrefix + if userId.Some? then ToUpper(userId.value[..Min(8, |userId.value|)]) else "undefined"
  }

  /** Two ids that agree on their first eight characters show the same
      partner id. */
  lemma PartnerIdUsesFirstEight(a: string, b: string)
    requires |a| >= 8 && |b| >= 8 && a[..8] == b[..8]
    ensures PartnerId(Some(a)) == PartnerId(Some(b))
  {
  }

  /** The stat cards: "Ulasan Masuk" is the number of reviews; "Rating
      Bisnis" is "0.0" with no reviews and the fixed "4.9" otherwise. */
  function Stats(reviews: seq<Review>): (s: StatCards)
    ensures s.reviewCount == |reviews|
    ensures s.rating == "0.0" <==> reviews == []
    ensures reviews != [] ==> s.rating == "4.9"
  {
    StatCards("2,481", |reviews|, if |reviews| > 0 then "4.9" else "0.0")
  }

  /** The rating card does not depend on the ratings: any two review lists
      of the same length show the same cards. */
  lemma RatingCardIgnoresRatings(a: seq<Review>, b: seq<Review>)
    requires |a| == |b|
    ensures Stats(a) == Stats(b)
  {
  }

  /** `profile.whatsapp_number || '-'` */
  function ShownWhatsApp(p: ProviderRecord): (s: string)
    ensures s != ""
    ensures s == if Truthy(p.whatsappNumber) then p.whatsappNumber.value else "-"
  {
    Or(p.whatsappNumber, "-")
  }

  /** `profile.location || profile.city || 'Surakarta'` */
  function ShownCoverage(p: ProviderRecord): (s: string)
    ensures s != ""
    ensures Truthy(p.location) ==> s == p.location.value
    ensures !Truthy(p.location) && Truthy(p.city) ==> s == p.city.value
    ensures !Truthy(p.location) && !Truthy(p.city) ==> s == "Surakarta"
  {
    Or(p.location, Or(p.city, "Surakarta"))
  }

  /** `profile.category || 'Umum'` */
  function ShownCategory(p: ProviderRecord): (s: string)
    ensures s != ""
    ensures s == if Truthy(p.category) then p.category.value else "Umum"
  {
    Or(p.category, "Umum")
  }

  // ---------------------------------------------------------------------------
  // Review list
  // ---------------------------------------------------------------------------

  predicate IsOtherReview(id: string, r: Review) {
    r.id != id
  }

  function OtherReviews(id: string): Review -> bool {
    r => IsOtherReview(id, r)
  }

  /** `reviews.filter(r => r.id !== id)` */
  function WithoutReview(reviews: seq<Review>, id: string): (r: seq<Review>)
    ensures forall rev :: rev in r <==> rev in reviews && rev.id != id
  {
    Filter(reviews, OtherReviews(id))
  }

  /** The reviews that stay keep their order and multiplicity. */
  lemma WithoutReviewKeepsOrder(reviews: seq<Review>, id: string)
    ensures IsSubsequence(WithoutReview(reviews, id), reviews)
    ensures forall rev :: multiset(WithoutReview(reviews, id))[rev] ==
                          if rev.id == id then 0 else multiset(reviews)[rev]
  {
    FilterIsSubsequence(reviews, OtherReviews(id));
    forall rev ensures multiset(WithoutReview(reviews, id))[rev] ==
                       if rev.id == id then 0 else multiset(reviews)[rev] {
      FilterCounts(reviews, OtherReviews(id), rev);
    }
  }

  // ---------------------------------------------------------------------------
  // The page
  // ---------------------------------------------------------------------------

  class DashboardPage {
    var profile: Option<ProviderRecord>
    var reviews: seq<Review>
    var loading: bool

    constructor ()
      ensures profile.None? && reviews == [] && loading
    {
      profile := None;
      reviews := [];
      loading := true;
    }

    /** `fetchDashboardData`: with no signed-in user, redirect to login. A
        failed profile query changes nothing; otherwise the profile (or its
        absence) is taken, and the reviews are taken as returned, a missing
        result counting as none. Loading ends in every case. */
    method FetchDashboardData(user: Option<string>, profileFetched: Result<Option<ProviderRecord>>,
                              reviewsFetched: Option<seq<Review>>)
      returns (redirectToLogin: bool)
      modifies this`profile, this`reviews, this`loading
      ensures redirectToLogin == user.None?
      ensures profile == if user.Some? && profileFetched.Ok? then profileFetched.value else old(profile)
      ensures reviews == if user.Some? && profileFetched.Ok?
                         then (if reviewsFetched.Some? then reviewsFetched.value else [])
                         else old(reviews)
      ensures !loading
    {
      redirectToLogin := false;
      if user.None? {
        redirectToLogin := true;
      } else if profileFetched.Ok? {
        profile := profileFetched.value;
        reviews := if reviewsFetched.Some? then reviewsFetched.value else [];
      }
      loading := false;
    }

    /** `handleDeleteReview`: the delete is requested only after the user
        confirms, and the list loses the reviews with that id only when the
        delete succeeds. */
    method HandleDeleteReview(id: string, confirmed: bool, deleteError: Option<string>)
      returns (deleteRequested: bool)
      modifies this`reviews
      ensures deleteRequested == confirmed
      ensures reviews == if confirmed && deleteError.None? then WithoutReview(old(reviews), id)
                         else old(reviews)
    {
      deleteRequested := false;
      if !confirmed {
        return;
      }
      deleteRequested := true;
      if deleteError.None? {
        reviews := WithoutReview(reviews, id);
      }
    }
  }
}
