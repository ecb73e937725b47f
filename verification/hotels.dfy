/** `searchHotels`: builds a storage query from the request's optional
    destination, facilities and maximum price, then returns one page of
    six matching hotels, most recently updated first, with the number of
    matches and of pages. The hotel collection is an input. */
module Hotels {

  import opened Wrappers
  import Strings
  import Pagination
  import Sorting
  import Sequences

  /** The fields of a hotel document the search reads. */
  datatype HotelDoc = HotelDoc(
    id: string,
    cityLower: string,
    countryLower: string,
    facilities: seq<string>,
    pricePerNight: int,
    lastUpdated: int)

  /** The `facilities` query parameter: absent, given once (a string) or
      given several times (a list). */
  datatype FacilitiesParam = NoFacilities | OneFacility(name: string) | FacilityList(names: seq<string>)

  /** The query parameters. `maxPrice` is present when a non-empty numeric
      value was given. */
  datatype SearchParams = SearchParams(
    page: Option<int>,
    destination: Option<string>,
    facilities: FacilitiesParam,
    maxPrice: Option<int>)

  /** The storage query: each field is a condition, absent when not set. */
  datatype HotelQuery = HotelQuery(
    destination: Option<string>,
    facilities: Option<seq<string>>,
    maxPrice: Option<int>)

  /** Whether a hotel satisfies every condition of a query: the city or the
      country equals the destination, every listed facility is among the
      hotel's (`$all`, which matches nothing when given an empty list),
      and the price is at most the maximum (`$lte`). */
  predicate Matches(q: HotelQuery, h: HotelDoc)
  {
    && (q.destination.Some? ==> h.cityLower == q.destination.value || h.countryLower == q.destination.value)
    && (q.facilities.Some? ==> q.facilities.value != [] && forall f :: f in q.facilities.value ==> f in h.facilities)
    && (q.maxPrice.Some? ==> h.pricePerNight <= q.maxPrice.value)
  }

  /** What the request asks for, stated on the parameters themselves: a
      non-empty destination must equal the lower-cased city or country
      exactly; facilities given as a non-empty string or as a list must
      all be present, and an empty list admits no hotel; a maximum price
      bounds the nightly price. */
  predicate Wanted(p: SearchParams, h: HotelDoc)
  {
    && (Strings.Truthy(p.destination) ==>
          var d := Strings.ToLower(p.destination.value); h.cityLower == d || h.countryLower == d)
    && (p.facilities.OneFacility? && p.facilities.name != "" ==> p.facilities.name in h.facilities)
    && (p.facilities.FacilityList? ==>
          p.facilities.names != [] && forall f :: f in p.facilities.names ==> f in h.facilities)
    && (p.maxPrice.Some? ==> h.pricePerNight <= p.maxPrice.value)
  }

  /** `q` selects exactly the hotels the request `p` wants. */
  ghost predicate Answers(q: HotelQuery, p: SearchParams)
  {
    forall h :: Matches(q, h) <==> Wanted(p, h)
  }

  /** Builds the query one condition at a time, each only when its
      parameter is truthy; a single facility becomes a one-element list.
      A hotel matches the query exactly when the request wants it. */
  method BuildQuery(p: SearchParams) returns (q: HotelQuery)
    ensures Answers(q, p)
    ensures q.destination.Some? <==> Strings.Truthy(p.destination)
  {
    q := HotelQuery(None, None, None);
    if Strings.Truthy(p.destination) {
      var destination := Strings.ToLower(p.destination.value);
      q := q.(destination := Some(destination));
    }
    if p.facilities.OneFacility? && p.facilities.name != "" {
      q := q.(facilities := Some([p.facilities.name]));
    } else if p.facilities.FacilityList? {
      q := q.(facilities := Some(p.facilities.names));
    }
    if p.maxPrice.Some? {
      q := q.(maxPrice := Some(p.maxPrice.value));
    }
  }

  /** `find(query)` / `countDocuments(query)`: the matching hotels, in
      collection order. */
  function Select(hotels: seq<HotelDoc>, q: HotelQuery): (r: seq<HotelDoc>)
    ensures |r| <= |hotels|
    ensures forall h :: h in r <==> h in hotels && Matches(q, h)
  {
    if hotels == [] then []
    else
      assert hotels == [hotels[0]] + hotels[1..];
      var rest := Select(hotels[1..], q);
      if Matches(q, hotels[0]) then [hotels[0]] + rest else rest
  }

  /** The selection keeps every matching hotel as many times as the
      collection holds it, and no other. */
  lemma {:induction false} SelectCounts(hotels: seq<HotelDoc>, q: HotelQuery)
    ensures forall h :: multiset(Select(hotels, q))[h] == if Matches(q, h) then multiset(hotels)[h] else 0
  {
    if hotels != [] {
      SelectCounts(hotels[1..], q);
      assert hotels == [hotels[0]] + hotels[1..];
    }
  }

  /** Selecting from a concatenation selects from each part and keeps
      the parts in order. */
  lemma {:induction false} SelectConcat(a: seq<HotelDoc>, b: seq<HotelDoc>, q: HotelQuery)
    ensures Select(a + b, q) == Select(a, q) + Select(b, q)
  {
    if a == [] {
      assert a + b == b;
    } else {
      var head := if Matches(q, a[0]) then [a[0]] else [];
      assert Select(a + b, q) == head + Select(a[1..] + b, q) by {
        assert (a + b)[0] == a[0] && (a + b)[1..] == a[1..] + b;
      }
      SelectConcat(a[1..], b, q);
      Sequences.ConcatAssociates(head, Select(a[1..], q), Select(b, q));
    }
  }

  /** The fixed page size. */
  const PageSize: int := 6

  /** The ordering key of `sort({ lastUpdated: -1 })`. */
  function NewestFirst(h: HotelDoc): int
  {
    -h.lastUpdated
  }

  /** `find(query).sort({ lastUpdated: -1 })`: the matching hotels, most
      recently updated first. */
  function NewestMatches(hotels: seq<HotelDoc>, q: HotelQuery): (r: seq<HotelDoc>)
    ensures multiset(r) == multiset(Select(hotels, q)) && |r| == |Select(hotels, q)|
    ensures forall h :: h in r <==> h in hotels && Matches(q, h)
    ensures Sorting.Ascending(r, NewestFirst)
  {
    var r := Sorting.SortBy(Select(hotels, q), NewestFirst);
    assert forall h :: h in r <==> h in multiset(r);
    assert |r| == |multiset(r)|;
    r
  }

  /** The search response. */
  datatype SearchResponse =
    | SearchPage(data: seq<HotelDoc>, total: nat, page: int, pages: int)
    | SearchFailed

  /** The page numbered `page` (from 1) of an already sorted result list:
      the window of six that starts `(page - 1) * 6` entries in. */
  function SortedPage(sorted: seq<HotelDoc>, page: int): (r: SearchResponse)
    requires page >= 1 && Sorting.Ascending(sorted, NewestFirst)
    ensures r.SearchPage? && r.page == page && r.total == |sorted|
    ensures r.pages == Pagination.CeilDiv(|sorted|, PageSize)
    ensures var skip := Pagination.Skip(page, PageSize);
            && |r.data| == (if skip >= |sorted| then 0 else if |sorted| - skip < PageSize then |sorted| - skip else PageSize)
            && forall i :: 0 <= i < |r.data| ==> skip + i < |sorted| && r.data[i] == sorted[skip + i]
    ensures forall h :: h in r.data ==> h in sorted
    ensures Sorting.Ascending(r.data, NewestFirst)
  {
    var skip := Pagination.Skip(page, PageSize);
    var data := Pagination.Window(sorted, skip, PageSize);
    assert Sorting.Ascending(data, NewestFirst) by {
      if data != [] {
        Sorting.AscendingSlice(sorted, NewestFirst, skip, skip + |data|);
        assert data == sorted[skip..skip + |data|];
      }
    }
    assert forall h :: h in data ==> h in sorted by {
      forall h | h in data
        ensures h in sorted
      {
        var i :| 0 <= i < |data| && data[i] == h;
        assert sorted[skip + i] == h;
      }
    }
    SearchPage(data, |sorted|, page, Pagination.CeilDiv(|sorted|, PageSize))
  }

  /** Page `page` of the matching hotels, newest first. A page before the
      first gives a negative skip, which the storage refuses: the handler
      then answers 500. Otherwise the page is the window of six that
      starts `(page - 1) * 6` hotels into the newest-first list, cut
      short at its end. */
  function ResultPage(hotels: seq<HotelDoc>, q: HotelQuery, page: int): (r: SearchResponse)
    ensures r.SearchPage? <==> page >= 1
    ensures r.SearchPage? ==> r.page == page && r.total == |Select(hotels, q)|
    ensures r.SearchPage? ==> r.pages == Pagination.CeilDiv(r.total, PageSize)
    ensures r.SearchPage? && r.total > 0 ==> (r.pages - 1) * PageSize < r.total <= r.pages * PageSize
    ensures r.SearchPage? ==>
              var skip := Pagination.Skip(page, PageSize);
              && |r.data| == (if skip >= r.total then 0 else if r.total - skip < PageSize then r.total - skip else PageSize)
              && forall i :: 0 <= i < |r.data| ==> r.data[i] == NewestMatches(hotels, q)[skip + i]
    ensures r.SearchPage? ==> forall h :: h in r.data ==> h in hotels && Matches(q, h)
    ensures r.SearchPage? ==> Sorting.Ascending(r.data, NewestFirst)
  {
    if page < 1 then
      SearchFailed
    else
      SortedPage(NewestMatches(hotels, q), page)
  }

  /** Newest first: along a page, `lastUpdated` never increases. */
  lemma PageNewestFirst(hotels: seq<HotelDoc>, q: HotelQuery, page: int, i: int, j: int)
    requires ResultPage(hotels, q, page).SearchPage?
    requires 0 <= i <= j < |ResultPage(hotels, q, page).data|
    ensures ResultPage(hotels, q, page).data[i].lastUpdated >= ResultPage(hotels, q, page).data[j].lastUpdated
  {
    var data := ResultPage(hotels, q, page).data;
    Sorting.AscendingPairs(data, NewestFirst, i, j);
  }

  /** Two queries that match the same hotels select the same list. */
  lemma {:induction false} SelectEquivalent(hotels: seq<HotelDoc>, q1: HotelQuery, q2: HotelQuery)
    requires forall h :: Matches(q1, h) <==> Matches(q2, h)
    ensures Select(hotels, q1) == Select(hotels, q2)
  {
    if hotels != [] {
      SelectEquivalent(hotels[1..], q1, q2);
    }
  }

  /** The handler: page falls back to 1, the query is built from the
      parameters, and the page of results is the one any query selecting
      exactly the wanted hotels gives: a page before the first is a 500,
      otherwise at most six wanted hotels, newest first, with the number
      of wanted hotels as total. `storageFails` says whether `find` or
      `countDocuments` throws; the catch then answers 500 as well. */
  method SearchHotels(hotels: seq<HotelDoc>, p: SearchParams, storageFails: bool) returns (r: SearchResponse)
    ensures storageFails ==> r == SearchFailed
    ensures !storageFails ==> forall q :: Answers(q, p) ==> r == ResultPage(hotels, q, Pagination.OrDefault(p.page, 1))
    ensures r.SearchPage? <==> !storageFails && Pagination.OrDefault(p.page, 1) >= 1
    ensures r.SearchPage? ==> forall h :: h in r.data ==> h in hotels && Wanted(p, h)
  {
    var page := Pagination.OrDefault(p.page, 1);
    var q := BuildQuery(p);
    if storageFails {
      return SearchFailed;
    }
    r := ResultPage(hotels, q, page);
    forall q' | Answers(q', p)
      ensures r == ResultPage(hotels, q', page)
    {
      SelectEquivalent(hotels, q, q');
    }
  }

  /** Every matching hotel is on one of the pages 1..pages: paging
      through the results reaches it. */
  lemma MatchOnSomePage(hotels: seq<HotelDoc>, q: HotelQuery, h: HotelDoc)
    requires h in hotels && Matches(q, h)
    ensures exists page :: 1 <= page <= ResultPage(hotels, q, 1).pages && h in ResultPage(hotels, q, page).data
  {
    var sorted := NewestMatches(hotels, q);
    assert h in sorted;
    var i :| 0 <= i < |sorted| && sorted[i] == h;
    var page := i / PageSize + 1;
    var skip := Pagination.Skip(page, PageSize);
    assert skip == (i / PageSize) * PageSize;
    assert i == (i / PageSize) * PageSize + i % PageSize;
    assert 0 <= i - skip == i % PageSize < PageSize;
    var r := ResultPage(hotels, q, page);
    assert r.SearchPage? && r.total == |sorted| && skip < r.total;
    assert |r.data| == if |sorted| - skip < PageSize then |sorted| - skip else PageSize;
    assert r.data[i - skip] == sorted[i];
    assert page <= ResultPage(hotels, q, 1).pages by {
      var pages := Pagination.CeilDiv(|sorted|, PageSize);
      assert (pages - 1) * PageSize < |sorted| <= pages * PageSize;
      assert i < pages * PageSize;
    }
  }
}
