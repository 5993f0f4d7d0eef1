/** Every query builder is a printer with an inverse: the parameters are read back from the URL. */
module QueryInverse {
  import opened Core
  import opened Numerals
  import opened Lists
  import opened Url
  import opened Query

  // ---------------------------------------------------------------- readers

  function DecodeOption(raw: Option<Bytes>): Option<Bytes> {
    match raw case Some(r) => Decoded(r) case None => None
  }

  function DecodeRequired(raw: Option<Bytes>): Bytes {
    match DecodeOption(raw) case Some(v) => v case None => []
  }

  /** `from_chars` into an int32: the value must be in range. */
  function ReadIntOption(raw: Option<Bytes>): Option<Int32> {
    match raw
    case None => None
    case Some(r) =>
      match ReadInt(r)
      case Some(n) => if -0x8000_0000 <= n <= INT32_MAX then Some(n) else None
      case None => None
  }

  function ReadBoolOption(raw: Option<Bytes>): Option<bool> {
    match raw case Some(r) => Some(r == "true") case None => None
  }

  function ReadFormat(raw: Bytes): ResponseFormat {
    if raw == "csv" then CSV else if raw == "json" then JSON else if raw == "ssv" then SSV
    else if raw == "pdf" then PDF else NetCDF
  }

  function ReadFormatOption(raw: Option<Bytes>): Option<ResponseFormat> {
    match raw case Some(r) => Some(ReadFormat(r)) case None => None
  }

  function DecodeEach(raws: seq<Bytes>): seq<Bytes> {
    seq(|raws|, i requires 0 <= i < |raws| => DecodeRequired(Some(raws[i])))
  }

  /** A list parameter is cut at the commas first, and only then decoded. */
  function ReadListOption(raw: Option<Bytes>): Option<seq<Bytes>> {
    match raw case Some(r) => Some(DecodeEach(Split<Byte>(r, ','))) case None => None
  }

  function LookupAll(fs: seq<Field>, key: Bytes): seq<Bytes> {
    if fs == [] then []
    else (if fs[0].key == key then [fs[0].raw] else []) + LookupAll(fs[1..], key)
  }

  function ReadListQuery(base: Bytes, url: Bytes): ListParams {
    var fs := ReadUrl(base, url);
    ListParams(DecodeOption(Lookup(fs, DATASETID)), DecodeOption(Lookup(fs, LOCATIONID)),
               DecodeOption(Lookup(fs, STATIONID)), DecodeOption(Lookup(fs, DATATYPEID)),
               DecodeOption(Lookup(fs, DATACATEGORYID)), DecodeOption(Lookup(fs, LOCATIONCATEGORYID)),
               DecodeOption(Lookup(fs, STARTDATE)), DecodeOption(Lookup(fs, ENDDATE)),
               DecodeOption(Lookup(fs, SORTFIELD)), DecodeOption(Lookup(fs, SORTORDER)),
               ReadIntOption(Lookup(fs, LIMIT)), ReadIntOption(Lookup(fs, OFFSET)))
  }

  function ReadDataQuery(url: Bytes): GetDataParams {
    var fs := ReadUrl(DATA_BASE, url);
    var types := DecodeEach(LookupAll(fs, DATATYPEID));
    GetDataParams(DecodeRequired(Lookup(fs, DATASETID)), DecodeRequired(Lookup(fs, STARTDATE)),
                  DecodeRequired(Lookup(fs, ENDDATE)), if types == [] then None else Some(types),
                  DecodeOption(Lookup(fs, LOCATIONID)), DecodeOption(Lookup(fs, STATIONID)),
                  DecodeOption(Lookup(fs, SORTFIELD)), DecodeOption(Lookup(fs, SORTORDER)),
                  ReadIntOption(Lookup(fs, LIMIT)), ReadIntOption(Lookup(fs, OFFSET)),
                  DecodeOption(Lookup(fs, UNITS)), ReadBoolOption(Lookup(fs, INCLUDEMETADATA)))
  }

  function ReadRequestQuery(url: Bytes): DataRequestParams {
    var fs := ReadUrl(REQUEST_BASE, url);
    DataRequestParams(DecodeRequired(Lookup(fs, DATASET)), DecodeOption(Lookup(fs, START_DATE)),
                      DecodeOption(Lookup(fs, END_DATE)), ReadListOption(Lookup(fs, STATIONS)),
                      ReadListOption(Lookup(fs, DATA_TYPES)), ReadFormatOption(Lookup(fs, FORMAT)),
                      DecodeOption(Lookup(fs, UNITS)), DecodeOption(Lookup(fs, BOUNDING_BOX)),
                      ReadBoolOption(Lookup(fs, INCLUDE_ATTRIBUTES)),
                      ReadBoolOption(Lookup(fs, INCLUDE_STATION_NAME)),
                      ReadBoolOption(Lookup(fs, INCLUDE_STATION_LOCATION)))
  }

  // ------------------------------------------------- one value at a time

  lemma EncodedPlain(value: Bytes)
    ensures Plain(Encoded(value)) && ',' !in Encoded(value)
    ensures Decoded(Encoded(value)) == Some(value)
  {
    EncodedAlphabet(value);
    DecodedOfEncoded(value);
    hide Encoded, Decoded;
  }

  lemma OptionReadable(value: Option<Bytes>)
    ensures EncodedOption(value).Some? ==> Plain(EncodedOption(value).value)
    ensures DecodeOption(EncodedOption(value)) == value
  {
    if value.Some? {
      EncodedPlain(value.value);
    }
  }

  lemma IntReadable(value: Option<Int32>)
    ensures IntOption(value).Some? ==> Plain(IntOption(value).value)
    ensures ReadIntOption(IntOption(value)) == value
  {
    if value.Some? {
      ReadOfDecimalText(value.value);
      var s := DecimalText(value.value);
      assert AllDigits(s) || (s[0] == '-' && AllDigits(s[1..]) && s == [s[0]] + s[1..]);
    }
  }

  lemma BoolReadable(value: Option<bool>)
    ensures BoolOption(value).Some? ==> Plain(BoolOption(value).value)
    ensures ReadBoolOption(BoolOption(value)) == value
  {
    assert "true" != "false" by {
      assert |"true"| == 4 && |"false"| == 5;
    }
  }

  lemma FormatReadable(value: Option<ResponseFormat>)
    ensures FormatOption(value).Some? ==> Plain(FormatOption(value).value)
    ensures ReadFormatOption(FormatOption(value)) == value
  {
    assert "csv"[0] != "json"[0] && "csv"[0] != "ssv"[0] && "json"[0] != "ssv"[0];
    assert "pdf"[0] != "csv"[0] && "pdf"[0] != "json"[0] && "pdf"[0] != "ssv"[0];
    assert "netcdf"[0] != "csv"[0] && "netcdf"[0] != "json"[0] && "netcdf"[0] != "ssv"[0] && "netcdf"[0] != "pdf"[0];
  }

  /** A list that was sent and non-empty comes back whole; an empty list reads as absent. */
  function NormalList(values: Option<seq<Bytes>>): Option<seq<Bytes>> {
    if values == Some([]) then None else values
  }

  lemma {:induction false} JoinPlain(parts: seq<Bytes>)
    requires parts != [] && forall i :: 0 <= i < |parts| ==> Plain(parts[i])
    ensures Plain(Join<Byte>(parts, ','))
  {
    if |parts| == 1 {
    } else {
      JoinPlain(parts[1..]);
    }
  }

  lemma ListReadable(values: Option<seq<Bytes>>)
    ensures ListOption(values).Some? ==> Plain(ListOption(values).value)
    ensures ReadListOption(ListOption(values)) == NormalList(values)
  {
    if values.Some? && values.value != [] {
      var vs := values.value;
      var parts := EncodedAll(vs);
      forall i | 0 <= i < |vs|
        ensures Plain(parts[i]) && ',' !in parts[i] && DecodeRequired(Some(parts[i])) == vs[i]
      {
        EncodedPlain(vs[i]);
      }
      JoinPlain(parts);
      SplitOfJoin<Byte>(parts, ',');
      assert DecodeEach(parts) == vs;
    }
  }

  // ------------------------------------------------- the parameters of a list

  lemma ListKeysDistinct(p: ListParams)
    ensures DistinctKeys(ListSlots(p))
  {
    ListSlotsTable(p);
    hide EncodedOption, IntOption, ListSlots;
  }

  lemma ListSlotsPlain(p: ListParams)
    ensures PlainSlots(ListSlots(p))
  {
    ListSlotsTable(p);
    hide EncodedOption, IntOption, Plain, ListSlots;
    OptionReadable(p.datasetId);
    OptionReadable(p.locationId);
    OptionReadable(p.stationId);
    OptionReadable(p.dataTypeId);
    OptionReadable(p.dataCategoryId);
    OptionReadable(p.locationCategoryId);
    OptionReadable(p.startDate);
    OptionReadable(p.endDate);
    OptionReadable(p.sortField);
    OptionReadable(p.sortOrder);
    IntReadable(p.limit);
    IntReadable(p.offset);
  }

  /** `build_list_query` loses nothing: the parameters are read back from the URL, whatever they are. */
  lemma ListQueryInverse(base: Bytes, p: ListParams)
    ensures ReadListQuery(base, UrlOf(base, Present(ListSlots(p)))) == p
  {
    hide EncodedOption, IntOption, Present, Lookup, UrlOf, ReadUrl, DecodeOption, ReadIntOption;
    var ss := ListSlots(p);
    ListSlotsPlain(p);
    ListKeysDistinct(p);
    PresentFields(ss);
    ReadOfUrl(base, Present(ss));
    LookupEach(ss);
    ListSlotsTable(p);
    hide ListSlots;
    OptionReadable(p.datasetId);
    OptionReadable(p.locationId);
    OptionReadable(p.stationId);
    OptionReadable(p.dataTypeId);
    OptionReadable(p.dataCategoryId);
    OptionReadable(p.locationCategoryId);
    OptionReadable(p.startDate);
    OptionReadable(p.endDate);
    OptionReadable(p.sortField);
    OptionReadable(p.sortOrder);
    IntReadable(p.limit);
    IntReadable(p.offset);
  }

  // ------------------------------------------------------ the data request

  lemma {:induction false} LookupAllConcat(a: seq<Field>, b: seq<Field>, key: Bytes)
    ensures LookupAll(a + b, key) == LookupAll(a, key) + LookupAll(b, key)
  {
    if a == [] {
      assert a + b == b;
    } else {
      assert (a + b)[1..] == a[1..] + b;
      LookupAllConcat(a[1..], b, key);
      var x, y, z := if a[0].key == key then [a[0].raw] else [], LookupAll(a[1..], key), LookupAll(b, key);
      assert x + (y + z) == x + y + z;
    }
  }

  lemma {:induction false} LookupAllAbsent(fs: seq<Field>, key: Bytes)
    requires forall i :: 0 <= i < |fs| ==> fs[i].key != key
    ensures LookupAll(fs, key) == []
  {
    if fs == [] {
    } else {
      LookupAllAbsent(fs[1..], key);
    }
  }

  lemma KeyAbsent(slots: seq<Slot>, key: Bytes)
    requires !HasKey(slots, key)
    ensures Lookup(Present(slots), key) == None && LookupAll(Present(slots), key) == []
  {
    PresentFields(slots);
    LookupAbsent(Present(slots), key);
    LookupAllAbsent(Present(slots), key);
  }

  /** A run of fields with one repeated key hides none of the others, and is hidden by none. */
  lemma LookupAround(a: seq<Slot>, b: seq<Slot>, c: seq<Slot>, k: Bytes)
    requires DistinctKeys(a + c) && !HasKey(a + c, k)
    requires forall i :: 0 <= i < |b| ==> b[i].key == k
    ensures forall i {:trigger (a + c)[i]} :: 0 <= i < |a + c| ==>
              Lookup(Present(a + b + c), (a + c)[i].key) == (a + c)[i].raw
    ensures LookupAll(Present(a + b + c), k) == LookupAll(Present(b), k)
  {
    hide Present, Lookup, LookupAll;
    var x, y, z := Present(a), Present(b), Present(c);
    PresentOfConcat(a, c);
    PresentOfConcat(a, b);
    PresentOfConcat(a + b, c);
    LookupEach(a + c);
    forall i | 0 <= i < |a + c|
      ensures Lookup(Present(a + b + c), (a + c)[i].key) == (a + c)[i].raw
    {
      var key := (a + c)[i].key;
      assert key != k;
      KeyAbsent(b, key);
      LookupConcat(x, z, key);
      LookupConcat(x, y, key);
      LookupConcat(x + y, z, key);
    }
    assert forall i :: 0 <= i < |a| ==> a[i] == (a + c)[i];
    assert forall i :: 0 <= i < |c| ==> c[i] == (a + c)[|a| + i];
    KeyAbsent(a, k);
    KeyAbsent(c, k);
    LookupAllConcat(x, y, k);
    LookupAllConcat(x + y, z, k);
  }

  lemma {:induction false} LookupAllSame(slots: seq<Slot>, k: Bytes)
    requires forall i :: 0 <= i < |slots| ==> slots[i].key == k && slots[i].raw.Some?
    ensures var raws := LookupAll(Present(slots), k);
            |raws| == |slots| && forall i :: 0 <= i < |slots| ==> Some(raws[i]) == slots[i].raw
  {
    if slots == [] {
    } else {
      LookupAllSame(slots[1..], k);
      assert Present(slots)[1..] == Present(slots[1..]);
      var raws := LookupAll(Present(slots), k);
      assert raws == [slots[0].raw.value] + LookupAll(Present(slots[1..]), k);
      forall i | 0 <= i < |slots|
        ensures Some(raws[i]) == slots[i].raw
      {
        assert i > 0 ==> slots[i] == slots[1..][i - 1];
      }
    }
  }

  function DataSingles(p: GetDataParams): seq<Slot> {
    DataHead(p) + DataTail(p)
  }

  lemma DataSinglesTable(p: GetDataParams)
    ensures var ss := DataSingles(p);
            && |ss| == 11
            && ss[0] == Slot(DATASETID, Some(Encoded(p.datasetId)))
            && ss[1] == Slot(STARTDATE, Some(Encoded(p.startDate)))
            && ss[2] == Slot(ENDDATE, Some(Encoded(p.endDate)))
            && ss[3] == Slot(LOCATIONID, EncodedOption(p.locationId))
            && ss[4] == Slot(STATIONID, EncodedOption(p.stationId))
            && ss[5] == Slot(SORTFIELD, EncodedOption(p.sortField))
            && ss[6] == Slot(SORTORDER, EncodedOption(p.sortOrder))
            && ss[7] == Slot(LIMIT, IntOption(p.limit))
            && ss[8] == Slot(OFFSET, IntOption(p.offset))
            && ss[9] == Slot(UNITS, EncodedOption(p.units))
            && ss[10] == Slot(INCLUDEMETADATA, BoolOption(p.includeMetadata))
  {
    DataTailTable(p);
  }

  lemma DataKeysDistinct(p: GetDataParams)
    ensures DistinctKeys(DataSingles(p))
  {
    DataSinglesTable(p);
    hide EncodedOption, IntOption, BoolOption, Encoded, DataSingles;
  }

  lemma DataTypeKeyApart(p: GetDataParams)
    ensures !HasKey(DataSingles(p), DATATYPEID)
  {
    DataSinglesTable(p);
    hide EncodedOption, IntOption, BoolOption, Encoded, DataSingles;
  }

  lemma DataSinglesPlain(p: GetDataParams)
    ensures PlainSlots(DataSingles(p))
  {
    DataSinglesTable(p);
    hide EncodedOption, IntOption, BoolOption, Encoded, Plain, DataSingles;
    EncodedPlain(p.datasetId);
    EncodedPlain(p.startDate);
    EncodedPlain(p.endDate);
    OptionReadable(p.locationId);
    OptionReadable(p.stationId);
    OptionReadable(p.sortField);
    OptionReadable(p.sortOrder);
    IntReadable(p.limit);
    IntReadable(p.offset);
    OptionReadable(p.units);
    BoolReadable(p.includeMetadata);
  }

  lemma DataSlotsPlain(p: GetDataParams)
    ensures PlainSlots(DataSlots(p))
  {
    DataSinglesPlain(p);
    var a, b, c := DataHead(p), DataTypeSlots(p), DataTail(p);
    hide DataHead, DataTail;
    forall i | 0 <= i < |b|
      ensures Plain(b[i].raw.value)
    {
      EncodedPlain(p.dataTypeIds.value[i]);
    }
    hide DataTypeSlots, Plain;
    forall i | 0 <= i < |a + b + c| && (a + b + c)[i].raw.Some?
      ensures Plain((a + b + c)[i].raw.value)
    {
      if i < |a| {
        assert (a + c)[i] == a[i];
      } else if i >= |a| + |b| {
        assert (a + c)[i - |b|] == c[i - |a| - |b|];
      }
    }
  }

  function NormalData(p: GetDataParams): GetDataParams {
    p.(dataTypeIds := NormalList(p.dataTypeIds))
  }

  lemma DataTypesReadable(p: GetDataParams)
    ensures DecodeEach(LookupAll(Present(DataTypeSlots(p)), DATATYPEID))
            == match p.dataTypeIds case None => [] case Some(ids) => ids
  {
    LookupAllSame(DataTypeSlots(p), DATATYPEID);
    if p.dataTypeIds.Some? {
      var ids := p.dataTypeIds.value;
      forall i | 0 <= i < |ids|
        ensures DecodeRequired(Some(Encoded(ids[i]))) == ids[i]
      {
        EncodedPlain(ids[i]);
      }
    }
  }

  /**
   `build_data_query` loses nothing but the difference between no data-type list and an empty one:
   the request is read back from its URL. */
  lemma DataQueryInverse(p: GetDataParams)
    ensures ReadDataQuery(UrlOf(DATA_BASE, Present(DataSlots(p)))) == NormalData(p)
  {
    hide EncodedOption, IntOption, BoolOption, Encoded, Present, Lookup, LookupAll, UrlOf, ReadUrl,
         Decoded, ReadIntOption, ReadBoolOption, DataHead, DataTypeSlots, DataTail;
    var fs := Present(DataSlots(p));
    DataSlotsPlain(p);
    PresentFields(DataSlots(p));
    ReadOfUrl(DATA_BASE, fs);
    DataKeysDistinct(p);
    DataTypeKeyApart(p);
    LookupAround(DataHead(p), DataTypeSlots(p), DataTail(p), DATATYPEID);
    DataSinglesTable(p);
    DataTypesReadable(p);
    EncodedPlain(p.datasetId);
    EncodedPlain(p.startDate);
    EncodedPlain(p.endDate);
    OptionReadable(p.locationId);
    OptionReadable(p.stationId);
    OptionReadable(p.sortField);
    OptionReadable(p.sortOrder);
    IntReadable(p.limit);
    IntReadable(p.offset);
    OptionReadable(p.units);
    BoolReadable(p.includeMetadata);
  }

  // -------------------------------------------------- the access data request

  lemma RequestSlotsReadable(p: DataRequestParams)
    ensures DistinctKeys(RequestSlots(p)) && PlainSlots(RequestSlots(p))
  {
    RequestSlotsTable(p);
    hide EncodedOption, ListOption, BoolOption, FormatOption, Encoded, Plain, RequestSlots;
    EncodedPlain(p.dataset);
    OptionReadable(p.startDate);
    OptionReadable(p.endDate);
    ListReadable(p.stations);
    ListReadable(p.dataTypes);
    FormatReadable(p.format);
    OptionReadable(p.units);
    OptionReadable(p.bbox);
    BoolReadable(p.includeAttributes);
    BoolReadable(p.includeStationName);
    BoolReadable(p.includeStationLocation);
  }

  function NormalRequest(p: DataRequestParams): DataRequestParams {
    p.(stations := NormalList(p.stations), dataTypes := NormalList(p.dataTypes))
  }

  /** The same for the Access Data Service: lists are cut at the commas before decoding. */
  lemma RequestQueryInverse(p: DataRequestParams)
    ensures ReadRequestQuery(UrlOf(REQUEST_BASE, Present(RequestSlots(p)))) == NormalRequest(p)
  {
    hide EncodedOption, ListOption, BoolOption, FormatOption, Encoded, Present, Lookup, UrlOf, ReadUrl,
         Decoded, ReadListOption, ReadFormatOption, ReadBoolOption;
    var ss := RequestSlots(p);
    RequestSlotsReadable(p);
    PresentFields(ss);
    ReadOfUrl(REQUEST_BASE, Present(ss));
    LookupEach(ss);
    RequestSlotsTable(p);
    hide RequestSlots;
    EncodedPlain(p.dataset);
    OptionReadable(p.startDate);
    OptionReadable(p.endDate);
    ListReadable(p.stations);
    ListReadable(p.dataTypes);
    FormatReadable(p.format);
    OptionReadable(p.units);
    OptionReadable(p.bbox);
    BoolReadable(p.includeAttributes);
    BoolReadable(p.includeStationName);
    BoolReadable(p.includeStationLocation);
  }

  /** Two list requests share a URL exactly when they are equal. */
  lemma ListUrlsTellApart(base: Bytes, p: ListParams, q: ListParams)
    ensures UrlOf(base, Present(ListSlots(p))) == UrlOf(base, Present(ListSlots(q))) <==> p == q
  {
    hide ListSlots, Present, UrlOf, ReadListQuery;
    ListQueryInverse(base, p);
    ListQueryInverse(base, q);
  }

  /** Two data requests share a URL exactly when they differ at most in None against an empty list. */
  lemma DataUrlsTellApart(p: GetDataParams, q: GetDataParams)
    ensures UrlOf(DATA_BASE, Present(DataSlots(p))) == UrlOf(DATA_BASE, Present(DataSlots(q)))
            <==> NormalData(p) == NormalData(q)
  {
    assert NormalData(p) == NormalData(q) ==> DataSlots(p) == DataSlots(q) by {
      hide EncodedOption, IntOption, BoolOption, Encoded;
      assert NormalList(p.dataTypeIds) == NormalList(q.dataTypeIds) ==> DataTypeSlots(p) == DataTypeSlots(q);
    }
    hide DataSlots, Present, UrlOf, ReadDataQuery;
    DataQueryInverse(p);
    DataQueryInverse(q);
  }

  /** The same for the Access Data Service and its two lists. */
  lemma RequestUrlsTellApart(p: DataRequestParams, q: DataRequestParams)
    ensures UrlOf(REQUEST_BASE, Present(RequestSlots(p))) == UrlOf(REQUEST_BASE, Present(RequestSlots(q)))
            <==> NormalRequest(p) == NormalRequest(q)
  {
    assert NormalRequest(p) == NormalRequest(q) ==> RequestSlots(p) == RequestSlots(q) by {
      hide EncodedOption, FormatOption, BoolOption, Encoded, EncodedAll, Join;
    }
    hide RequestSlots, Present, UrlOf, ReadRequestQuery;
    RequestQueryInverse(p);
    RequestQueryInverse(q);
  }
}
