/** The category tabs on the search results page: `'Semua'` shows every
    result, any other tab keeps the providers whose category contains the
    tab's name, ignoring case. */
module SearchTabs {
  import opened Maybe
  import opened JsText
  import opened Seqs
  import opened Records

  /** The tab that shows everything. */
  const AllTab := "Semua"

  /** `p.category?.toLowerCase().includes(tab.toLowerCase())`: the
      lower-cased tab name occurs in the lower-cased category; a provider
      without a category never matches. */
  function MatchesTab(tab: string, p: ProviderRecord): (r: bool)
    ensures r <==> p.category.Some? && exists i :: OccursAt(ToLower(p.category.value), ToLower(tab), i)
    ensures p.category.Some? && ToLower(p.category.value) == ToLower(tab) ==> r
  {
    p.category.Some? &&
    var c := ToLower(p.category.value);
    assert OccursAt(c, c, 0);
    Contains(c, ToLower(tab))
  }

  /** The case the tab name is written in does not matter. */
  lemma MatchesTabIgnoresCase(tab: string, p: ProviderRecord)
    ensures MatchesTab(ToUpper(tab), p) == MatchesTab(tab, p)
  {
    LowerOfUpper(tab);
  }

  function TabTest(tab: string): ProviderRecord -> bool {
    p => MatchesTab(tab, p)
  }

  /** `filteredResults` */
  function FilteredResults(results: seq<ProviderRecord>, tab: string): (r: seq<ProviderRecord>)
    ensures tab == AllTab ==> r == results
    ensures tab != AllTab ==> forall p :: p in r <==> p in results && MatchesTab(tab, p)
    ensures tab != AllTab ==> forall p :: p in r ==> p.category.Some?
  {
    if tab == AllTab then results else Filter(results, TabTest(tab))
  }

  /** A tab keeps an order-preserving subsequence of the results, each kept
      provider as often as it occurs. */
  lemma TabKeepsOrder(results: seq<ProviderRecord>, tab: string)
    ensures IsSubsequence(FilteredResults(results, tab), results)
    ensures tab != AllTab ==> forall p :: multiset(FilteredResults(results, tab))[p] ==
                                         if MatchesTab(tab, p) then multiset(results)[p] else 0
  {
    if tab == AllTab {
      FilterAllPass(results, (p: ProviderRecord) => true);
      FilterIsSubsequence(results, (p: ProviderRecord) => true);
    } else {
      FilterIsSubsequence(results, TabTest(tab));
      forall p ensures multiset(FilteredResults(results, tab))[p] ==
                       if MatchesTab(tab, p) then multiset(results)[p] else 0 {
        FilterCounts(results, TabTest(tab), p);
      }
    }
  }

  /** Choosing the same tab again changes nothing. */
  lemma TabFilterIdempotent(results: seq<ProviderRecord>, tab: string)
    ensures FilteredResults(FilteredResults(results, tab), tab) == FilteredResults(results, tab)
  {
    if tab != AllTab {
      FilterIdempotent(results, TabTest(tab));
    }
  }
}
