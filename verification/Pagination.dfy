/** Page metadata and its offset arithmetic (include/ncei/pagination.hpp). */
module Pagination {
  import opened Core

  datatype ResultSetMetadata = ResultSetMetadata(offset: Int32, count: Int32, limit: Int32)
  datatype CDOResponse<+T> = CDOResponse(metadata: ResultSetMetadata, results: seq<T>)

  // The sums are taken in 64 bits; only the clamped value is narrowed to an int32.
  predicate HasMore<T>(r: CDOResponse<T>) {
    var next := Max(r.metadata.offset, 1) + r.metadata.limit;
    r.metadata.offset >= 0 && r.metadata.limit > 0 && next <= r.metadata.count
  }

  function NextOffset<T>(r: CDOResponse<T>): Int32 {
    Max(1, Min(Max(r.metadata.offset, 1) + Max(r.metadata.limit, 0), INT32_MAX))
  }

  /**
   For any metadata whatever, a page that has more leads to the offset right after it: the sum is
   never clamped, and it names a record that the server counted. */
  lemma NextOffsetIsExact<T>(r: CDOResponse<T>)
    ensures HasMore(r) ==> NextOffset(r) == Max(r.metadata.offset, 1) + r.metadata.limit <= r.metadata.count
    ensures HasMore(r) ==> Max(r.metadata.offset, 1) < NextOffset(r)
    ensures HasMore(r) <==>
            && r.metadata.limit > 0
            && (r.metadata.offset == 0 || r.metadata.offset >= 1)
            && (r.metadata.offset == 0 ==> r.metadata.limit < r.metadata.count)
            && (r.metadata.offset >= 1 ==> r.metadata.offset + r.metadata.limit <= r.metadata.count)
    ensures var first := if r.metadata.offset < 1 then 1 else r.metadata.offset;
            && (r.metadata.limit <= 0 ==> NextOffset(r) == first)
            && (r.metadata.limit > 0 ==> NextOffset(r) == Min(first + r.metadata.limit, 0x7fff_ffff))
  {
  }
}
