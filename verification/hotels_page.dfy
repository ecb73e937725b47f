/** The hotels listing page of the frontend: the loaded hotels are
    narrowed by a free-text query on name and city and optionally ordered
    by price, on a copy, so the loaded list itself never changes. */
module HotelsPage {

  import Strings
  import Sorting
  import Sequences

  /** The fields of a listed hotel the page reads. */
  datatype Hotel = Hotel(id: string, name: string, city: string, country: string, pricePerNight: int)

  /** A hotel answers the query when its lower-cased name or city
      includes the lower-cased query. */
  predicate MatchesQuery(query: string, h: Hotel)
  {
    var q := Strings.ToLower(query);
    Strings.Contains(Strings.ToLower(h.name), q) || Strings.Contains(Strings.ToLower(h.city), q)
  }

  /** `result.filter(...)`: the hotels answering the query, in order. */
  function Filter(hotels: seq<Hotel>, query: string): (r: seq<Hotel>)
    ensures |r| <= |hotels|
    ensures forall h :: h in r <==> h in hotels && MatchesQuery(query, h)
  {
    if hotels == [] then []
    else
      assert hotels == [hotels[0]] + hotels[1..];
      var rest := Filter(hotels[1..], query);
      if MatchesQuery(query, hotels[0]) then [hotels[0]] + rest else rest
  }

  /** The filter keeps every answering hotel as many times as the list
      holds it, and no other. */
  lemma {:induction false} FilterCounts(hotels: seq<Hotel>, query: string)
    ensures forall h :: multiset(Filter(hotels, query))[h] == if MatchesQuery(query, h) then multiset(hotels)[h] else 0
  {
    if hotels != [] {
      FilterCounts(hotels[1..], query);
      assert hotels == [hotels[0]] + hotels[1..];
    }
  }

  /** Filtering a concatenation filters each part and keeps the parts in
      order. */
  lemma {:induction false} FilterConcat(a: seq<Hotel>, b: seq<Hotel>, query: string)
    ensures Filter(a + b, query) == Filter(a, query) + Filter(b, query)
  {
    if a == [] {
      assert a + b == b;
    } else {
      var head := if MatchesQuery(query, a[0]) then [a[0]] else [];
      assert Filter(a + b, query) == head + Filter(a[1..] + b, query) by {
        assert (a + b)[0] == a[0] && (a + b)[1..] == a[1..] + b;
      }
      FilterConcat(a[1..], b, query);
      Sequences.ConcatAssociates(head, Filter(a[1..], query), Filter(b, query));
    }
  }

  /** The search step: an empty query skips the filter. */
  function SearchFilter(hotels: seq<Hotel>, query: string): (r: seq<Hotel>)
    ensures query == "" ==> r == hotels
    ensures query != "" ==> r == Filter(hotels, query)
  {
    if query == "" then hotels else Filter(hotels, query)
  }

  /** Skipping the filter for an empty query changes nothing: every
      string includes the empty one, so the filter would keep all. */
  lemma {:induction false} EmptyQueryKeepsAll(hotels: seq<Hotel>)
    ensures Filter(hotels, "") == hotels
  {
    if hotels != [] {
      Strings.ContainsEmpty(Strings.ToLower(hotels[0].name));
      EmptyQueryKeepsAll(hotels[1..]);
    }
  }

  /** The filter does not depend on the query's letter case. */
  lemma {:induction false} FilterIgnoresQueryCase(hotels: seq<Hotel>, query: string)
    ensures Filter(hotels, Strings.ToLower(query)) == Filter(hotels, query)
  {
    Strings.ToLowerIdempotent(query);
    if hotels != [] {
      FilterIgnoresQueryCase(hotels[1..], query);
    }
  }

  /** The price-sort toggle: unsorted, then low to high, then high to
      low. */
  datatype SortOrder = Unsorted | Asc | Desc

  /** The toggle's transition: ascending becomes descending, anything
      else ascending. */
  function NextSort(s: SortOrder): (r: SortOrder)
    ensures s == Asc ==> r == Desc
    ensures s != Asc ==> r == Asc
  {
    if s == Asc then Desc else Asc
  }

  /** After the first press the toggle alternates between the two
      orders and never returns to unsorted. */
  lemma ToggleAlternates(s: SortOrder)
    ensures NextSort(s) != Unsorted
    ensures NextSort(NextSort(s)) == (if s == Asc then Asc else Desc)
    ensures NextSort(NextSort(NextSort(s))) == NextSort(s)
  {
  }

  /** The ascending comparator's key. */
  function PriceKey(h: Hotel): int
  {
    h.pricePerNight
  }

  /** The descending comparator's key. */
  function NegatedPriceKey(h: Hotel): int
  {
    -h.pricePerNight
  }

  class HotelsListing {
    /** The hotels as loaded from the search endpoint. */
    var rawHotels: seq<Hotel>
    var searchQuery: string
    var priceSort: SortOrder

    /** The page as it opens: nothing loaded, no query, unsorted. */
    constructor ()
      ensures rawHotels == [] && searchQuery == "" && priceSort == Unsorted
    {
      rawHotels := [];
      searchQuery := "";
      priceSort := Unsorted;
    }

    /** The loaded hotels arrive. */
    method Load(hotels: seq<Hotel>)
      modifies this
      ensures rawHotels == hotels && searchQuery == old(searchQuery) && priceSort == old(priceSort)
    {
      rawHotels := hotels;
    }

    /** The search box changes. */
    method SetSearchQuery(query: string)
      modifies this
      ensures searchQuery == query && rawHotels == old(rawHotels) && priceSort == old(priceSort)
    {
      searchQuery := query;
    }

    /** The price button. */
    method ToggleSort()
      modifies this
      ensures priceSort == NextSort(old(priceSort))
      ensures rawHotels == old(rawHotels) && searchQuery == old(searchQuery)
    {
      priceSort := if priceSort == Asc then Desc else Asc;
    }

    /** The "clear filters" button of the empty state. */
    method ClearFilters()
      modifies this
      ensures searchQuery == "" && priceSort == Unsorted && rawHotels == old(rawHotels)
    {
      searchQuery := "";
      priceSort := Unsorted;
    }

    /** `filteredHotels`: the hotels answering the query, copied into a
        fresh array and sorted there by price when an order is chosen.
        The result holds exactly the matching hotels, in load order when
        unsorted, by non-decreasing price for `Asc` and by non-increasing
        price for `Desc`; the page's own state is not touched. */
    method FilteredHotels() returns (result: seq<Hotel>)
      ensures multiset(result) == multiset(SearchFilter(rawHotels, searchQuery))
      ensures forall h :: h in result <==> h in rawHotels && MatchesQuery(searchQuery, h)
      ensures priceSort == Unsorted ==> result == SearchFilter(rawHotels, searchQuery)
      ensures priceSort == Asc ==> forall i :: 0 < i < |result| ==> result[i - 1].pricePerNight <= result[i].pricePerNight
      ensures priceSort == Desc ==> forall i :: 0 < i < |result| ==> result[i - 1].pricePerNight >= result[i].pricePerNight
    {
      var kept := SearchFilter(rawHotels, searchQuery);
      if searchQuery == "" {
        EmptyQueryKeepsAll(rawHotels);
      }
      assert forall h :: h in kept <==> h in multiset(kept);
      result := kept;
      if priceSort != Unsorted {
        result := SortedByPrice(kept, priceSort == Asc);
        assert forall h :: h in result <==> h in multiset(result);
      }
    }
  }

  /** `result.sort(...)` on a fresh copy of `hotels`: the same hotels by
      non-decreasing price when `ascending`, by non-increasing price
      otherwise. */
  method SortedByPrice(hotels: seq<Hotel>, ascending: bool) returns (result: seq<Hotel>)
    ensures multiset(result) == multiset(hotels)
    ensures ascending ==> forall i :: 0 < i < |result| ==> result[i - 1].pricePerNight <= result[i].pricePerNight
    ensures !ascending ==> forall i :: 0 < i < |result| ==> result[i - 1].pricePerNight >= result[i].pricePerNight
  {
    var a := new Hotel[|hotels|](i requires 0 <= i < |hotels| => hotels[i]);
    assert a[..] == hotels;
    if ascending {
      Sorting.SortInPlace(a, PriceKey);
    } else {
      Sorting.SortInPlace(a, NegatedPriceKey);
    }
    result := a[..];
  }
}
