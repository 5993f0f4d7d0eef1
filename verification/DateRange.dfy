/** Cutting a date range into chunks the server accepts (src/core/date_range.cpp). */
module DateRange {
  import opened Core
  import opened Calendar

  datatype DateRange = DateRange(first: Bytes, second: Bytes)

  // ------------------------------------------ chunks of an interval of integers

  /** How many pieces of `width` consecutive integers it takes to cover lo..hi. */
  function ChunkCount(lo: int, hi: int, width: int): nat
    requires lo <= hi && width >= 1
  {
    (hi - lo) / width + 1
  }

  function ChunkStart(lo: int, width: int, i: int): int {
    lo + i * width
  }

  lemma ChunkBounds(lo: int, hi: int, width: int, i: int)
    requires lo <= hi && width >= 1 && 0 <= i
    ensures i < ChunkCount(lo, hi, width) <==> ChunkStart(lo, width, i) <= hi
    ensures ChunkStart(lo, width, i + 1) == ChunkStart(lo, width, i) + width
    ensures lo <= ChunkStart(lo, width, i)
  {
    var q := (hi - lo) / width;
    assert q * width <= hi - lo < (q + 1) * width by {
      assert hi - lo == q * width + (hi - lo) % width;
      assert (q + 1) * width == q * width + width;
    }
    if i <= q {
      assert i * width <= q * width;
    } else {
      assert (q + 1) * width <= i * width;
    }
    assert (i + 1) * width == i * width + width;
    assert 0 <= i * width;
  }

  lemma FirstChunk(lo: int, width: int)
    ensures ChunkStart(lo, width, 0) == lo
  {
  }

  /** The i-th chunk of start..end, written without running any loop. */
  function Chunk(lo: int, hi: int, width: int, i: nat): (r: DateRange)
    requires FIRST_DAY <= lo <= hi <= LAST_DAY && width >= 1 && i < ChunkCount(lo, hi, width)
  {
    ChunkBounds(lo, hi, width, i);
    DateRange(DateText(ChunkStart(lo, width, i)),
              DateText(Min(ChunkStart(lo, width, i) + width - 1, hi)))
  }

  function Chunks(lo: int, hi: int, width: int): (cs: seq<DateRange>)
    requires FIRST_DAY <= lo <= hi <= LAST_DAY && width >= 1
    ensures |cs| == ChunkCount(lo, hi, width)
    ensures forall i :: 0 <= i < |cs| ==> cs[i] == Chunk(lo, hi, width, i)
  {
    seq(ChunkCount(lo, hi, width), i requires 0 <= i < ChunkCount(lo, hi, width) => Chunk(lo, hi, width, i))
  }

  /** What `split_date_range` returns: the error of the first failing check, or every chunk. */
  function Split(start: string, end: string, maxDays: int): DateResult<seq<DateRange>> {
    if maxDays < 0 then Bad(BadRangeOrChunk)
    else
      match DaysBetween(start, end)
      case Bad(e) => Bad(e)
      case Good(n) =>
        if n < 0 then Bad(BadRangeOrChunk)
        else
          TextOfDay(start);
          TextOfDay(end);
          Good(Chunks(DayOf(start), DayOf(end), maxDays + 1))
  }

  function DayOf(date: string): int
    requires ParseDate(date).Good?
  {
    DayNumber(ParseDate(date).value)
  }

  /** The days a chunk stands for. */
  lemma ChunkDays(lo: int, hi: int, width: int, i: nat)
    requires FIRST_DAY <= lo <= hi <= LAST_DAY && width >= 1 && i < ChunkCount(lo, hi, width)
    ensures var c := Chunk(lo, hi, width, i);
            && ParseDate(c.first).Good? && DayOf(c.first) == ChunkStart(lo, width, i)
            && ParseDate(c.second).Good? && DayOf(c.second) == Min(ChunkStart(lo, width, i) + width - 1, hi)
  {
    ChunkBounds(lo, hi, width, i);
    hide ChunkCount, ChunkStart, ParseDate, FromSysDays, DayNumber;
  }

  // --------------------------------------------------------------- the loop

  method SplitDateRange(start: Bytes, end: Bytes, maxDays: Int32) returns (r: DateResult<seq<DateRange>>)
    ensures r == Split(start, end, maxDays)
  {
    if maxDays < 0 {
      return Bad(BadRangeOrChunk);
    }
    hide ParseDate, FormatDate, DateText, FromSysDays, DayNumber, Chunks;
    var whole := DaysBetween(start, end);
    if whole.Bad? {
      return Bad(whole.error);
    }
    if whole.value < 0 {
      return Bad(BadRangeOrChunk);
    }
    TextOfDay(start);
    TextOfDay(end);
    var ranges := SplitLoop(start, end, maxDays, DayOf(start), DayOf(end));
    r := Good(ranges);
  }

  /** The loop of `split_date_range`, once the checks have passed. */
  method SplitLoop(start: Bytes, end: Bytes, maxDays: Int32, ghost lo: int, ghost hi: int)
    returns (ranges: seq<DateRange>)
    requires FIRST_DAY <= lo <= hi <= LAST_DAY && maxDays >= 0
    requires start == DateText(lo) && end == DateText(hi)
    ensures ranges == Chunks(lo, hi, maxDays + 1)
  {
    hide ParseDate, FormatDate, DaysBetween, AddDays, ChunkCount, ChunkStart, DateText, FromSysDays, DayNumber;
    ghost var width := maxDays + 1;
    ranges := [];
    var chunkStart := start;
    ChunkBounds(lo, hi, width, 0);
    FirstChunk(lo, width);
    ghost var day := lo;
    while true
      invariant |ranges| < ChunkCount(lo, hi, width)
      invariant lo <= day == ChunkStart(lo, width, |ranges|) <= hi
      invariant chunkStart == DateText(day)
      invariant forall i :: 0 <= i < |ranges| ==> ranges[i] == Chunk(lo, hi, width, i)
      decreases hi - day
    {
      ChunkBounds(lo, hi, width, |ranges|);
      ChunkBounds(lo, hi, width, |ranges| + 1);
      TextArithmetic(day, hi);
      var remaining := DaysBetween(chunkStart, end);
      if remaining.value <= maxDays {
        ranges := ranges + [DateRange(chunkStart, end)];
        break;
      }
      TextArithmetic(day, day + maxDays);
      var chunkEnd := AddDays(chunkStart, maxDays);
      ranges := ranges + [DateRange(chunkStart, chunkEnd.value)];
      TextArithmetic(day + maxDays, day + width);
      var next := AddDays(chunkEnd.value, 1);
      chunkStart := next.value;
      day := day + width;
    }
  }

  // ------------------------------------------------------------- properties

  /** Chunk i has exactly `width` dates unless it is the last, and chunk i+1 starts the next day. */
  lemma ChunkSpan(lo: int, hi: int, width: int, i: nat)
    requires FIRST_DAY <= lo <= hi <= LAST_DAY && width >= 1 && i < ChunkCount(lo, hi, width)
    ensures var c := Chunk(lo, hi, width, i);
            var last := i == ChunkCount(lo, hi, width) - 1;
            && (!last ==> DaysBetween(c.first, c.second) == Good(width - 1)
                          && DaysBetween(c.second, Chunk(lo, hi, width, i + 1).first) == Good(1))
            && (last ==> DaysBetween(c.first, c.second).Good?
                         && 0 <= DaysBetween(c.first, c.second).value < width && c.second == DateText(hi))
  {
    hide ParseDate, FormatDate, DaysBetween, ChunkCount, ChunkStart, DateText, FromSysDays, DayNumber;
    ChunkBounds(lo, hi, width, i);
    ChunkBounds(lo, hi, width, i + 1);
    var from := ChunkStart(lo, width, i);
    var to := Min(from + width - 1, hi);
    TextArithmetic(from, to);
    if i < ChunkCount(lo, hi, width) - 1 {
      TextArithmetic(to, to + 1);
    }
  }

  /**
   `split_date_range` is an exact partition of start..end: the chunks run from `start` to `end`
   without gap or overlap, all but the last have maxDays+1 dates, the last has at most that many,
   and there are ceil((days+1)/(maxDays+1)) of them. */
  lemma SplitIsPartition(start: string, end: string, maxDays: int)
    requires Split(start, end, maxDays).Good?
    ensures DaysBetween(start, end).Good?
    ensures var ranges := Split(start, end, maxDays).value;
            && |ranges| >= 1 && ranges[0].first == start && ranges[|ranges| - 1].second == end
            && (|ranges| - 1) * (maxDays + 1) < DaysBetween(start, end).value + 1 <= |ranges| * (maxDays + 1)
    ensures var ranges := Split(start, end, maxDays).value;
            forall i {:trigger ranges[i]} :: 0 <= i < |ranges| ==>
              var days := DaysBetween(ranges[i].first, ranges[i].second);
              if i < |ranges| - 1 then
                days == Good(maxDays) && DaysBetween(ranges[i].second, ranges[i + 1].first) == Good(1)
              else
                days.Good? && 0 <= days.value <= maxDays
  {
    hide ParseDate, FormatDate, DateText, FromSysDays, DayNumber;
    var ranges := Split(start, end, maxDays).value;
    TextOfDay(start);
    TextOfDay(end);
    var lo, hi, width := DayOf(start), DayOf(end), maxDays + 1;
    hide DayOf, ChunkCount, ChunkStart;
    FirstChunk(lo, width);
    ChunkSpan(lo, hi, width, |ranges| - 1);
    ChunkBounds(lo, hi, width, 0);
    ChunkBounds(lo, hi, width, |ranges| - 1);
    ChunkBounds(lo, hi, width, |ranges|);
    assert ranges[0] == Chunk(lo, hi, width, 0);
    forall i | 0 <= i < |ranges| - 1
      ensures DaysBetween(ranges[i].first, ranges[i].second) == Good(maxDays)
      ensures DaysBetween(ranges[i].second, ranges[i + 1].first) == Good(1)
    {
      ChunkSpan(lo, hi, width, i);
      assert ranges[i] == Chunk(lo, hi, width, i) && ranges[i + 1] == Chunk(lo, hi, width, i + 1);
    }
  }

  /** The checks that fail, exactly; the overflow error of `add_days` never escapes the loop. */
  lemma SplitErrors(start: string, end: string, maxDays: int)
    ensures Split(start, end, maxDays).Good? <==>
            maxDays >= 0 && ParseDate(start).Good? && ParseDate(end).Good?
            && DayNumber(ParseDate(start).value) <= DayNumber(ParseDate(end).value)
    ensures Split(start, end, maxDays) != Bad(YearOverflow)
    ensures maxDays < 0 ==> Split(start, end, maxDays) == Bad(BadRangeOrChunk)
    ensures maxDays >= 0 && DaysBetween(start, end).Bad? ==>
              Split(start, end, maxDays) == Bad(DaysBetween(start, end).error)
    ensures maxDays >= 0 && DaysBetween(start, end).Good? && DaysBetween(start, end).value < 0 ==>
              Split(start, end, maxDays) == Bad(BadRangeOrChunk)
  {
  }

  /** The ranges cover the days lo..hi one after the other: every day lies in exactly one of them. */
  predicate Tiles(ranges: seq<DateRange>, lo: int, hi: int) {
    if ranges == [] then lo > hi
    else
      && ParseDate(ranges[0].first).Good? && DayOf(ranges[0].first) == lo
      && ParseDate(ranges[0].second).Good? && lo <= DayOf(ranges[0].second) <= hi
      && Tiles(ranges[1..], DayOf(ranges[0].second) + 1, hi)
  }

  lemma {:induction false} ChunksTile(lo: int, hi: int, width: int, i: nat)
    requires FIRST_DAY <= lo <= hi <= LAST_DAY && width >= 1 && i <= ChunkCount(lo, hi, width)
    ensures Tiles(Chunks(lo, hi, width)[i..], ChunkStart(lo, width, i), hi)
    decreases ChunkCount(lo, hi, width) - i
  {
    var cs := Chunks(lo, hi, width);
    ChunkBounds(lo, hi, width, i);
    ChunkBounds(lo, hi, width, i + 1);
    hide ChunkCount, ChunkStart, Chunk, Chunks, ParseDate, DayOf, Tiles;
    TilesUnfold(cs[i..], ChunkStart(lo, width, i), hi);
    if i < |cs| {
      ChunksTile(lo, hi, width, i + 1);
      ChunkDays(lo, hi, width, i);
      assert cs[i..][0] == cs[i] && cs[i..][1..] == cs[i + 1..];
      if i + 1 == |cs| {
        assert cs[i + 1..] == [];
        TilesUnfold([], ChunkStart(lo, width, i + 1), hi);
        TilesUnfold([], hi + 1, hi);
      }
    } else {
      assert cs[i..] == [];
    }
  }

  lemma TilesUnfold(ranges: seq<DateRange>, lo: int, hi: int)
    ensures ranges == [] ==> (Tiles(ranges, lo, hi) <==> lo > hi)
    ensures ranges != [] ==>
              (Tiles(ranges, lo, hi) <==>
                && ParseDate(ranges[0].first).Good? && DayOf(ranges[0].first) == lo
                && ParseDate(ranges[0].second).Good? && lo <= DayOf(ranges[0].second) <= hi
                && Tiles(ranges[1..], DayOf(ranges[0].second) + 1, hi))
  {
  }

  lemma SplitTiles(start: string, end: string, maxDays: int)
    requires Split(start, end, maxDays).Good?
    ensures ParseDate(start).Good? && ParseDate(end).Good?
    ensures Tiles(Split(start, end, maxDays).value, DayOf(start), DayOf(end))
  {
    TextOfDay(start);
    TextOfDay(end);
    var cs := Chunks(DayOf(start), DayOf(end), maxDays + 1);
    ChunksTile(DayOf(start), DayOf(end), maxDays + 1, 0);
    FirstChunk(DayOf(start), maxDays + 1);
    assert cs[0..] == cs;
  }

  /** In how many of the ranges day n lies. */
  function Covering(ranges: seq<DateRange>, n: int): nat {
    if ranges == [] then 0
    else
      (if ParseDate(ranges[0].first).Good? && ParseDate(ranges[0].second).Good?
          && DayOf(ranges[0].first) <= n <= DayOf(ranges[0].second) then 1 else 0)
      + Covering(ranges[1..], n)
  }

  /** No gap and no overlap: a day of the tiled interval lies in exactly one range, any other in none. */
  lemma {:induction false} TilesCoverOnce(ranges: seq<DateRange>, lo: int, hi: int, n: int)
    requires Tiles(ranges, lo, hi)
    ensures Covering(ranges, n) == if lo <= n <= hi then 1 else 0
  {
    if ranges == [] {
    } else {
      TilesCoverOnce(ranges[1..], DayOf(ranges[0].second) + 1, hi, n);
    }
  }
}
