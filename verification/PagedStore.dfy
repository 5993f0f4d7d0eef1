/**
 A concrete server: one store of records, cut to the range asked for, sent in pages of a fixed size.
 Against it nothing has to be assumed of the replies, and fetch-all always succeeds. */
module PagedStore {
  import opened Core
  import opened Calendar
  import opened DateRange
  import opened Pagination
  import opened Query
  import opened FetchAll

  type PageSize = n: int | 1 <= n <= INT32_MAX witness 1

  function StoreListing(store: seq<Record>): Listing {
    (r: DateRange) =>
      if ParseDate(r.first).Good? && ParseDate(r.second).Good? then
        Within(store, DayOf(r.first), DayOf(r.second))
      else []
  }

  /**
   The page of a listing for an offset: the first page for offsets before the first record, or for none,
   and an empty page for offsets past the end. A listing too long to count is refused. */
  function PageAt(held: seq<Record>, asked: Int32, size: Int32): (reply: Result<Page>)
    requires size >= 1
    ensures reply.Ok? <==> |held| <= INT32_MAX
    ensures reply.Ok? && 1 <= asked <= |held| + 1 ==> HonestPage(held, asked, reply.value)
  {
    var offset := Max(asked, 1);
    if |held| > INT32_MAX then Err(Error(ServerError, "too many records"))
    else
      Ok(CDOResponse(ResultSetMetadata(offset, |held|, size),
                     if offset > |held| then [] else held[offset - 1..Min(offset - 1 + size, |held|)]))
  }

  function StoreServer(store: seq<Record>, size: Int32): Server
    requires size >= 1
  {
    (n: nat, request: GetDataParams) =>
      PageAt(StoreListing(store)(DateRange(request.startDate, request.endDate)), OffsetOf(request), size)
  }

  lemma {:induction false} WithinSize(store: seq<Record>, lo: int, hi: int)
    ensures |Within(store, lo, hi)| <= |store|
  {
    if store == [] {
    } else {
      WithinSize(store[1..], lo, hi);
    }
  }

  lemma ListingSize(store: seq<Record>, range: DateRange)
    ensures |StoreListing(store)(range)| <= |store|
  {
    hide ParseDate, DayOf;
    if ParseDate(range.first).Good? && ParseDate(range.second).Good? {
      WithinSize(store, DayOf(range.first), DayOf(range.second));
    }
  }

  lemma {:induction false} ChunkOfStore(store: seq<Record>, size: Int32, n: nat, p: GetDataParams, range: DateRange,
                                        offset: Int32)
    requires size >= 1 && |store| <= INT32_MAX && 1 <= offset <= |StoreListing(store)(range)| + 1
    ensures FetchChunk(StoreServer(store, size), n, p, range, offset).result
            == Ok(StoreListing(store)(range)[offset - 1..])
    decreases INT32_MAX - offset
  {
    hide StoreListing, PageAt, HonestPage, HasMore, NextOffset;
    var held := StoreListing(store)(range);
    ListingSize(store, range);
    var reply := PageAt(held, offset, size);
    assert StoreServer(store, size)(n, PageRequest(p, range, offset)) == reply;
    HonestPageStep(held, offset, reply.value);
    hide StoreServer, PageRequest;
    if !HasMore(reply.value) {
    } else {
      var next := NextOffset(reply.value);
      ChunkOfStore(store, size, n + 1, p, range, next);
      assert held[offset - 1..next - 1] + held[next - 1..] == held[offset - 1..];
    }
  }

  lemma {:induction false} RangesOfStore(store: seq<Record>, size: Int32, n: nat, p: GetDataParams,
                                         ranges: seq<DateRange>)
    requires size >= 1 && |store| <= INT32_MAX
    ensures FetchRanges(StoreServer(store, size), n, p, ranges).result == Ok(Concat(StoreListing(store), ranges))
    decreases |ranges|
  {
    hide StoreListing, FetchChunk, StoreServer;
    if ranges == [] {
    } else {
      var held := StoreListing(store)(ranges[0]);
      ChunkOfStore(store, size, n, p, ranges[0], 1);
      assert held[0..] == held;
      var first := FetchChunk(StoreServer(store, size), n, p, ranges[0], 1);
      RangesOfStore(store, size, n + |first.calls|, p, ranges[1..]);
    }
  }

  /**
   Whatever the store, the page size and the valid range: fetch-all succeeds with exactly the records
   dated start..end, and when the store is in date order, with them in the order of the store. */
  lemma FetchAllOfStore(store: seq<Record>, size: Int32, p: GetDataParams)
    requires size >= 1 && |store| <= INT32_MAX
    requires Splits(p)
    ensures ParseDate(p.startDate).Good? && ParseDate(p.endDate).Good?
    ensures var result := Fetch(StoreServer(store, size), p).result;
            var dated := Within(store, DayOf(p.startDate), DayOf(p.endDate));
            && result.Ok? && multiset(result.value) == multiset(dated)
            && (DateOrdered(store) ==> result.value == dated)
  {
    FetchOfChunks(StoreServer(store, size), p);
    hide DayOf, ParseDate, ChunksOf, Splits, Split, Tiles, Within, Concat, FetchRanges, DateOrdered, Fetch;
    var ranges := ChunksOf(p);
    RangesOfStore(store, size, 0, p, ranges);
    TilesConserve(StoreListing(store), store, ranges, DayOf(p.startDate), DayOf(p.endDate));
    if DateOrdered(store) {
      TilesInOrder(StoreListing(store), store, ranges, DayOf(p.startDate), DayOf(p.endDate));
    }
  }
}
