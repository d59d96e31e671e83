/** `getProviders`: a case-insensitive specialty filter, a free-text filter on
    name, specialty and tags, and an optional stable sort. The `location`
    parameter is accepted by the source and never used, so it is not modelled. */
module Search {
  import opened Collections
  import opened Text
  import opened Domain
  import opened Sorting

  /** `query` (already lower-cased) occurs in the lower-cased name, specialty or
      some tag; the empty query occurs everywhere. */
  function MatchesQuery(p: Provider, query: string): (r: bool)
    ensures r <==>
      || Occurs(ToLower(p.name), query)
      || Occurs(ToLower(p.specialty), query)
      || exists t :: 0 <= t < |p.tags| && Occurs(ToLower(p.tags[t]), query)
    ensures query == "" ==> r
  {
    assert query == "" ==> OccursAt(ToLower(p.name), query, 0);
    || Contains(ToLower(p.name), query)
    || Contains(ToLower(p.specialty), query)
    || exists t :: 0 <= t < |p.tags| && Contains(ToLower(p.tags[t]), query)
  }

  /** The provider passes both filters. A filter given as "" (absent) is not
      applied, and neither is the specialty `all`; otherwise the specialty is
      compared without regard to case and the query must occur in a field. */
  function Admitted(p: Provider, specialty: string, q: string): (r: bool)
    ensures (specialty == "" || specialty == "all") && q == "" ==> r
    ensures r && specialty != "" && specialty != "all" ==> ToLower(p.specialty) == ToLower(specialty)
    ensures r && q != "" ==> MatchesQuery(p, ToLower(q))
    ensures ToLower(p.specialty) == ToLower(specialty) && q == "" ==> r
    ensures (specialty == "" || specialty == "all") && MatchesQuery(p, ToLower(q)) ==> r
    ensures ToLower(p.specialty) == ToLower(specialty) && MatchesQuery(p, ToLower(q)) ==> r
  {
    && (specialty == "" || specialty == "all" || ToLower(p.specialty) == ToLower(specialty))
    && (q == "" || MatchesQuery(p, ToLower(q)))
  }

  /** Both filters ignore the case of their arguments, except that only the
      exact spelling `all` switches the specialty filter off: `ALL` selects
      providers whose specialty lowers to `all`. */
  lemma {:induction false} AdmittedIgnoresCase(p: Provider, specialty: string, q: string)
    ensures ToLower(specialty) != "all" ==>
      (Admitted(p, specialty, q) <==> Admitted(p, ToLower(specialty), ToLower(q)))
    ensures Admitted(p, "ALL", "") <==> ToLower(p.specialty) == "all"
  {
    ToLowerIdempotent(specialty);
    ToLowerIdempotent(q);
    assert ToLower(specialty) == "" <==> specialty == "";
    assert ToLower(q) == "" <==> q == "";
    assert ToLower("ALL") == "all";
  }

  function Admit(specialty: string, q: string): Provider -> bool
  {
    (p: Provider) => Admitted(p, specialty, q)
  }

  /** Sort keys: rating descending, cost ascending, queue length ascending. */
  function ByRating(p: Provider): real { -p.rating }
  function ByCost(p: Provider): real { p.estimatedCost }
  function ByQueue(p: Provider): real { p.queueLength as real }

  /** Name order: `collation` stands for `localeCompare`'s order, given as a key. */
  function ByName(collation: string -> real): Provider -> real
  {
    (p: Provider) => collation(p.name)
  }

  /** The key a sort name selects; any other name, or none, leaves the order
      alone. A smaller key comes first, so each key orders providers as the
      source's comparator does. */
  function SortKey(sort: string, collation: string -> real): (r: Option<Provider -> real>)
    ensures r.None? <==> sort != "rating" && sort != "cost" && sort != "queue" && sort != "name"
    ensures sort == "rating" ==> r.Some? && forall a, b :: r.value(a) <= r.value(b) <==> a.rating >= b.rating
    ensures sort == "cost" ==> r.Some? && forall a, b :: r.value(a) <= r.value(b) <==> a.estimatedCost <= b.estimatedCost
    ensures sort == "queue" ==> r.Some? && forall a, b :: r.value(a) <= r.value(b) <==> a.queueLength <= b.queueLength
    ensures sort == "name" ==> r.Some? && forall a, b :: r.value(a) <= r.value(b) <==> collation(a.name) <= collation(b.name)
  {
    if sort == "rating" then Some(ByRating)
    else if sort == "cost" then Some(ByCost)
    else if sort == "queue" then Some(ByQueue)
    else if sort == "name" then Some(ByName(collation))
    else None
  }

  function GetProviders(providers: seq<Provider>, specialty: string, q: string, sort: string, collation: string -> real)
    : (r: seq<Provider>)
    ensures forall p :: multiset(r)[p] == if Admitted(p, specialty, q) then multiset(providers)[p] else 0
    ensures sort == "rating" ==> forall i, j :: 0 <= i < j < |r| ==> r[i].rating >= r[j].rating
    ensures sort == "cost" ==> forall i, j :: 0 <= i < j < |r| ==> r[i].estimatedCost <= r[j].estimatedCost
    ensures sort == "queue" ==> forall i, j :: 0 <= i < j < |r| ==> r[i].queueLength <= r[j].queueLength
    ensures sort == "name" ==> forall i, j :: 0 <= i < j < |r| ==> collation(r[i].name) <= collation(r[j].name)
    ensures SortKey(sort, collation).None? ==> r == Filter(providers, Admit(specialty, q))
    ensures SortKey(sort, collation).Some? ==> forall k ::
      WithKey(r, SortKey(sort, collation).value, k) == WithKey(Filter(providers, Admit(specialty, q)), SortKey(sort, collation).value, k)
  {
    var admitted := Filter(providers, Admit(specialty, q));
    FilterCounts(providers, Admit(specialty, q));
    match SortKey(sort, collation)
    case None => admitted
    case Some(key) =>
      SortBySorted(admitted, key);
      SortByPermutes(admitted, key);
      assert forall k :: WithKey(SortBy(admitted, key), key, k) == WithKey(admitted, key, k) by {
        forall k ensures WithKey(SortBy(admitted, key), key, k) == WithKey(admitted, key, k) {
          SortByStable(admitted, key, k);
        }
      }
      SortBy(admitted, key)
  }
}
