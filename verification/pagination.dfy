/** The page arithmetic shared by the listing endpoints: a page number
    and a page size taken from the query string with a fallback, the
    number of documents to skip, and the page count
    `Math.ceil(total / size)`. */
module Pagination {

  import opened Wrappers

  /** `parseInt(param) || fallback` (or `Number(param) || fallback`): a
      parameter that is absent, does not parse (NaN) or parses to 0 is
      falsy and gives way to the fallback; any other number is kept, a
      negative one included. `None` stands for absent or unparseable. */
  function OrDefault(param: Option<int>, fallback: int): (r: int)
    ensures param.None? ==> r == fallback
    ensures param == Some(0) ==> r == fallback
    ensures param.Some? && param.value != 0 ==> r == param.value
    ensures fallback != 0 ==> r != 0
  {
    if param.Some? && param.value != 0 then param.value else fallback
  }

  /** `(page - 1) * size`: the documents before page `page`. */
  function Skip(page: int, size: int): int
  {
    (page - 1) * size
  }

  /** `skip(skip).limit(size)` on a list: the at most `size` elements
      that follow the first `skip`, fewer at the end of the list. */
  function Window<T>(s: seq<T>, skip: nat, size: nat): (w: seq<T>)
    ensures |w| == if skip >= |s| then 0 else if |s| - skip < size then |s| - skip else size
    ensures forall i :: 0 <= i < |w| ==> skip + i < |s| && w[i] == s[skip + i]
  {
    if skip >= |s| then [] else if |s| - skip < size then s[skip..] else s[skip..skip + size]
  }

  /** `Math.ceil(total / size)` for a non-zero integer size. */
  function CeilDiv(total: int, size: int): (r: int)
    requires size != 0
    ensures size > 0 ==> (r - 1) * size < total <= r * size
    ensures size < 0 ==> r * size <= total < (r - 1) * size
  {
    if size > 0 then
      var q := (-total) / size;
      assert -total == size * q + (-total) % size;
      -q
    else
      var q := total / (-size);
      assert total == (-size) * q + total % (-size);
      -q
  }

  /** With a positive page size the pages of a listing partition its
      documents: document `k` (from 0) of `total` lies in the window
      `[Skip(p), Skip(p) + size)` of page `p = k / size + 1`, which is
      one of the pages 1..pages, and of no other page. So paging through
      1..pages shows every document exactly once. */
  lemma {:induction false} PagesPartition(total: nat, size: int, k: int)
    requires size > 0 && 0 <= k < total
    ensures var p := k / size + 1;
            && 1 <= p <= CeilDiv(total, size)
            && Skip(p, size) <= k < Skip(p, size) + size
    ensures forall p :: Skip(p, size) <= k < Skip(p, size) + size ==> p == k / size + 1
  {
    var p := k / size + 1;
    assert k == (k / size) * size + k % size;
    assert Skip(p, size) == (k / size) * size;
    var pages := CeilDiv(total, size);
    assert (pages - 1) * size < total <= pages * size;
    if p > pages {
      MulMonotone(pages, p - 1, size);
    }
    forall p' | Skip(p', size) <= k < Skip(p', size) + size
      ensures p' == p
    {
      if p' < p {
        MulMonotone(p', p - 1, size);
      } else if p' > p {
        MulMonotone(p, p' - 1, size);
      }
    }
  }

  /** Multiplying by a positive size keeps the order. */
  lemma MulMonotone(x: int, y: int, size: int)
    requires x <= y && size > 0
    ensures x * size <= y * size
  {
  }

  /** With a positive page size, the last page is the one holding the
      final document: every document falls on one of the pages 1..pages. */
  lemma {:induction false} LastPageHoldsLastDocument(total: nat, size: int)
    requires size > 0 && total > 0
    ensures CeilDiv(total, size) >= 1
    ensures Skip(CeilDiv(total, size), size) < total <= Skip(CeilDiv(total, size), size) + size
  {
    var r := CeilDiv(total, size);
    assert (r - 1) * size < total <= r * size;
    assert r * size == (r - 1) * size + size;
  }

  /** The page block every listing response echoes. */
  datatype PageInfo = PageInfo(page: int, limit: int, skip: int, total: int, pages: int)

  /** A listing's answer: its page block, or the 500 of the `catch`. */
  datatype Listing = Listed(info: PageInfo) | ListFailed

  /** The listing arithmetic with a page size taken from the query
      (`getAllBookings`, `getAllUsers`): page falls back to 1, limit to
      10, and the page count is `Math.ceil(total / limit)`, for a
      negative limit too. `storageFails` says the find or the count
      throws. A negative skip makes the find throw as well, so both
      answer 500. */
  function ListPage(pageParam: Option<int>, limitParam: Option<int>, total: nat, storageFails: bool): (r: Listing)
    ensures r.ListFailed? <==> storageFails || Skip(OrDefault(pageParam, 1), OrDefault(limitParam, 10)) < 0
    ensures r.Listed? ==> r.info.page == OrDefault(pageParam, 1) && r.info.limit == OrDefault(limitParam, 10)
    ensures r.Listed? ==> r.info.limit != 0 && r.info.skip == (r.info.page - 1) * r.info.limit >= 0
    ensures r.Listed? ==> r.info.total == total
    ensures r.Listed? && r.info.limit > 0 ==> (r.info.pages - 1) * r.info.limit < total <= r.info.pages * r.info.limit
    ensures r.Listed? && r.info.limit < 0 ==> r.info.pages * r.info.limit <= total < (r.info.pages - 1) * r.info.limit
  {
    var page := OrDefault(pageParam, 1);
    var limit := OrDefault(limitParam, 10);
    if storageFails || Skip(page, limit) < 0 then ListFailed
    else Listed(PageInfo(page, limit, Skip(page, limit), total, CeilDiv(total, limit)))
  }

  /** Which query strings make the skip negative, and so the listing
      fail: a page below 0 with a positive limit, or a page from 2 on
      with a negative one. Page 1 never fails for its skip. */
  lemma NegativeSkipFails(pageParam: Option<int>, limitParam: Option<int>, total: nat)
    ensures var page := OrDefault(pageParam, 1);
            var limit := OrDefault(limitParam, 10);
            var failed := ListPage(pageParam, limitParam, total, false).ListFailed?;
            failed <==> (page < 0 && limit > 0) || (page >= 2 && limit < 0)
  {
  }
}
