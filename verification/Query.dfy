/**
 The query builders (src/api/cdo_client.cpp, src/api/data_service_client.cpp) and the reader
 that takes a built URL apart again. */
module Query {
  import opened Core
  import opened Numerals
  import opened Lists
  import opened Url

  datatype ListParams = ListParams(
    datasetId: Option<Bytes>, locationId: Option<Bytes>, stationId: Option<Bytes>,
    dataTypeId: Option<Bytes>, dataCategoryId: Option<Bytes>, locationCategoryId: Option<Bytes>,
    startDate: Option<Bytes>, endDate: Option<Bytes>, sortField: Option<Bytes>,
    sortOrder: Option<Bytes>, limit: Option<Int32>, offset: Option<Int32>)

  datatype GetDataParams = GetDataParams(
    datasetId: Bytes, startDate: Bytes, endDate: Bytes, dataTypeIds: Option<seq<Bytes>>,
    locationId: Option<Bytes>, stationId: Option<Bytes>, sortField: Option<Bytes>,
    sortOrder: Option<Bytes>, limit: Option<Int32>, offset: Option<Int32>, units: Option<Bytes>,
    includeMetadata: Option<bool>)

  datatype ResponseFormat = CSV | JSON | SSV | PDF | NetCDF

  datatype DataRequestParams = DataRequestParams(
    dataset: Bytes, startDate: Option<Bytes>, endDate: Option<Bytes>,
    stations: Option<seq<Bytes>>, dataTypes: Option<seq<Bytes>>, format: Option<ResponseFormat>,
    units: Option<Bytes>, bbox: Option<Bytes>, includeAttributes: Option<bool>,
    includeStationName: Option<bool>, includeStationLocation: Option<bool>)

  // ------------------------------------------------------ fields of a query

  // A query field as it stands between two ampersands, and a field that may be absent.
  // The names of the parameters contain neither of the two delimiters.
  predicate Plain(s: Bytes) { '&' !in s && '=' !in s }
  type Key = s: Bytes | Plain(s) witness []

  datatype Field = Field(key: Bytes, raw: Bytes)
  datatype Slot = Slot(key: Key, raw: Option<Bytes>)

  function Present(slots: seq<Slot>): seq<Field> {
    if slots == [] then []
    else if slots[0].raw.None? then Present(slots[1..])
    else [Field(slots[0].key, slots[0].raw.value)] + Present(slots[1..])
  }

  function Text(f: Field): Bytes { f.key + ['='] + f.raw }

  function Texts(fs: seq<Field>): (ts: seq<Bytes>)
    ensures |ts| == |fs| && forall i :: 0 <= i < |fs| ==> ts[i] == Text(fs[i])
  {
    seq(|fs|, i requires 0 <= i < |fs| => Text(fs[i]))
  }

  function UrlOf(base: Bytes, fs: seq<Field>): Bytes {
    if fs == [] then base else base + ['?'] + Join<Byte>(Texts(fs), '&')
  }

  /** The reader: fields between ampersands, each split at '='. */
  function ReadField(text: Bytes): Field {
    var parts := Split<Byte>(text, '=');
    Field(parts[0], if |parts| > 1 then parts[1] else [])
  }

  function ReadUrl(base: Bytes, url: Bytes): seq<Field> {
    if !(base + ['?'] <= url) then []
    else
      var parts := Split<Byte>(url[|base| + 1..], '&');
      seq(|parts|, i requires 0 <= i < |parts| => ReadField(parts[i]))
  }

  function Lookup(fs: seq<Field>, key: Bytes): Option<Bytes> {
    if fs == [] then None
    else if fs[0].key == key then Some(fs[0].raw)
    else Lookup(fs[1..], key)
  }

  predicate PlainSlots(slots: seq<Slot>) {
    forall i :: 0 <= i < |slots| ==> (slots[i].raw.Some? ==> Plain(slots[i].raw.value))
  }

  predicate PlainFields(fs: seq<Field>) {
    forall i :: 0 <= i < |fs| ==> Plain(fs[i].key) && Plain(fs[i].raw)
  }

  predicate DistinctKeys(slots: seq<Slot>) {
    forall i, j :: 0 <= i < j < |slots| ==> slots[i].key != slots[j].key
  }

  predicate HasKey(slots: seq<Slot>, key: Bytes) {
    exists j :: 0 <= j < |slots| && slots[j].key == key
  }

  lemma {:induction false} PresentOfConcat(a: seq<Slot>, b: seq<Slot>)
    ensures Present(a + b) == Present(a) + Present(b)
  {
    if a == [] {
      assert a + b == b;
    } else {
      hide Present;
      var head, tail := a[0], a[1..];
      assert a == [head] + tail && a + b == [head] + (tail + b);
      PresentOfCons(head, tail);
      PresentOfCons(head, tail + b);
      PresentOfConcat(tail, b);
    }
  }

  lemma PresentOfCons(s: Slot, rest: seq<Slot>)
    ensures s.raw.None? ==> Present([s] + rest) == Present(rest)
    ensures s.raw.Some? ==> Present([s] + rest) == [Field(s.key, s.raw.value)] + Present(rest)
  {
    assert ([s] + rest)[1..] == rest;
  }

  /** Every field present has the key of a slot, and its raw text when the slots are plain. */
  lemma {:induction false} PresentFields(slots: seq<Slot>)
    ensures forall i :: 0 <= i < |Present(slots)| ==>
              HasKey(slots, Present(slots)[i].key)
    ensures PlainSlots(slots) ==> PlainFields(Present(slots))
  {
    if slots == [] {
    } else {
      var rest := Present(slots[1..]);
      PresentFields(slots[1..]);
      var shift := if slots[0].raw.Some? then 1 else 0;
      forall i | 0 <= i < |Present(slots)|
        ensures HasKey(slots, Present(slots)[i].key)
        ensures PlainSlots(slots) ==> Plain(Present(slots)[i].key) && Plain(Present(slots)[i].raw)
      {
        if i < shift {
          assert Present(slots)[i] == Field(slots[0].key, slots[0].raw.value);
        } else {
          assert Present(slots)[i] == rest[i - shift];
          var j :| 0 <= j < |slots[1..]| && slots[1..][j].key == rest[i - shift].key;
          assert slots[j + 1] == slots[1..][j];
        }
      }
    }
  }

  lemma FirstKeyIsNew(a: seq<Slot>, b: seq<Slot>, i: nat)
    requires a != [] && |a| == |b| && DistinctKeys(a) && i < |Present(b[1..])|
    requires forall i :: 0 <= i < |a| ==> a[i].key == b[i].key
    ensures Present(b[1..])[i].key != a[0].key
  {
    PresentFields(b[1..]);
    var j :| 0 <= j < |b[1..]| && b[1..][j].key == Present(b[1..])[i].key;
    assert a[j + 1].key == b[j + 1].key == b[1..][j].key;
  }

  /** A slot's value is found under its key exactly when it is present. */
  lemma {:induction false} LookupPresent(slots: seq<Slot>, i: nat)
    requires i < |slots| && DistinctKeys(slots)
    ensures Lookup(Present(slots), slots[i].key) == slots[i].raw
  {
    var rest := Present(slots[1..]);
    assert slots[0].raw.Some? ==> Present(slots)[1..] == rest;
    if i == 0 {
      forall k | 0 <= k < |rest|
        ensures rest[k].key != slots[0].key
      {
        FirstKeyIsNew(slots, slots, k);
      }
      LookupAbsent(rest, slots[0].key);
    } else {
      LookupPresent(slots[1..], i - 1);
    }
  }

  lemma LookupEach(slots: seq<Slot>)
    requires DistinctKeys(slots)
    ensures forall i {:trigger slots[i]} :: 0 <= i < |slots| ==> Lookup(Present(slots), slots[i].key) == slots[i].raw
  {
    forall i | 0 <= i < |slots|
      ensures Lookup(Present(slots), slots[i].key) == slots[i].raw
    {
      LookupPresent(slots, i);
    }
  }

  lemma {:induction false} LookupAbsent(fs: seq<Field>, key: Bytes)
    requires forall i :: 0 <= i < |fs| ==> fs[i].key != key
    ensures Lookup(fs, key) == None
  {
    if fs == [] {
    } else {
      LookupAbsent(fs[1..], key);
    }
  }

  lemma {:induction false} LookupConcat(a: seq<Field>, b: seq<Field>, key: Bytes)
    ensures Lookup(a + b, key) == if Lookup(a, key).Some? then Lookup(a, key) else Lookup(b, key)
  {
    if a == [] {
      assert a + b == b;
    } else {
      LookupConcat(a[1..], b, key);
      assert (a + b)[1..] == a[1..] + b;
    }
  }

  /** Reading a built URL gives back its fields, in order. */
  lemma ReadOfUrl(base: Bytes, fs: seq<Field>)
    requires PlainFields(fs)
    ensures ReadUrl(base, UrlOf(base, fs)) == fs
  {
    if fs != [] {
      var url := UrlOf(base, fs);
      assert url[|base| + 1..] == Join<Byte>(Texts(fs), '&');
      forall i | 0 <= i < |fs|
        ensures '&' !in Text(fs[i]) && ReadField(Text(fs[i])) == fs[i]
      {
        SplitHead<Byte>(fs[i].key, fs[i].raw, '=');
        SplitHead<Byte>(fs[i].raw, [], '=');
        assert Split<Byte>(Text(fs[i]), '=') == [fs[i].key, fs[i].raw];
      }
      SplitOfJoin<Byte>(Texts(fs), '&');
    }
  }

  lemma UrlOfAppend(base: Bytes, fs: seq<Field>, f: Field)
    ensures UrlOf(base, fs + [f]) == UrlOf(base, fs) + [if fs == [] then '?' else '&'] + Text(f)
  {
    assert Texts(fs + [f]) == Texts(fs) + [Text(f)];
    if fs != [] {
      JoinAppend<Byte>(Texts(fs), Text(f), '&');
    }
  }

  // ------------------------------------------------------- the three builders

  const DATASETID: Key := "datasetid"
  const LOCATIONID: Key := "locationid"
  const STATIONID: Key := "stationid"
  const DATATYPEID: Key := "datatypeid"
  const DATACATEGORYID: Key := "datacategoryid"
  const LOCATIONCATEGORYID: Key := "locationcategoryid"
  const STARTDATE: Key := "startdate"
  const ENDDATE: Key := "enddate"
  const SORTFIELD: Key := "sortfield"
  const SORTORDER: Key := "sortorder"
  const LIMIT: Key := "limit"
  const OFFSET: Key := "offset"
  const UNITS: Key := "units"
  const INCLUDEMETADATA: Key := "includemetadata"
  const DATASET: Key := "dataset"
  const START_DATE: Key := "startDate"
  const END_DATE: Key := "endDate"
  const STATIONS: Key := "stations"
  const DATA_TYPES: Key := "dataTypes"
  const FORMAT: Key := "format"
  const BOUNDING_BOX: Key := "boundingBox"
  const INCLUDE_ATTRIBUTES: Key := "includeAttributes"
  const INCLUDE_STATION_NAME: Key := "includeStationName"
  const INCLUDE_STATION_LOCATION: Key := "includeStationLocation"

  function EncodedOption(value: Option<Bytes>): Option<Bytes> {
    match value case Some(v) => Some(Encoded(v)) case None => None
  }

  /** An integer is encoded to itself. */
  lemma EncodedInt(value: Option<Int32>)
    ensures EncodedOption(IntOption(value)) == IntOption(value)
  {
    if value.Some? {
      var s := DecimalText(value.value);
      assert AllDigits(s) || (AllDigits(s[1..]) && forall i :: 0 < i < |s| ==> s[i] == s[1..][i - 1]);
      EncodedUnreserved(s);
    }
  }

  function IntOption(value: Option<Int32>): Option<Bytes> {
    match value case Some(n) => Some(DecimalText(n)) case None => None
  }

  function BoolOption(value: Option<bool>): Option<Bytes> {
    match value case Some(b) => Some(if b then "true" else "false") case None => None
  }

  function FormatText(f: ResponseFormat): Bytes {
    match f
    case CSV => "csv" case JSON => "json" case SSV => "ssv" case PDF => "pdf" case NetCDF => "netcdf"
  }

  function FormatOption(value: Option<ResponseFormat>): Option<Bytes> {
    match value case Some(f) => Some(FormatText(f)) case None => None
  }

  function EncodedAll(values: seq<Bytes>): (r: seq<Bytes>)
    ensures |r| == |values| && forall i :: 0 <= i < |r| ==> r[i] == Encoded(values[i])
  {
    seq(|values|, i requires 0 <= i < |values| => Encoded(values[i]))
  }

  /** A list becomes one comma-joined field; an empty list leaves no trace in the URL. */
  function ListOption(values: Option<seq<Bytes>>): Option<Bytes> {
    match values
    case None => None
    case Some(vs) => if vs == [] then None else Some(Join<Byte>(EncodedAll(vs), ','))
  }

  function ListSlots(p: ListParams): seq<Slot> {
    [Slot(DATASETID, EncodedOption(p.datasetId)),
     Slot(LOCATIONID, EncodedOption(p.locationId)),
     Slot(STATIONID, EncodedOption(p.stationId)),
     Slot(DATATYPEID, EncodedOption(p.dataTypeId)),
     Slot(DATACATEGORYID, EncodedOption(p.dataCategoryId)),
     Slot(LOCATIONCATEGORYID, EncodedOption(p.locationCategoryId)),
     Slot(STARTDATE, EncodedOption(p.startDate)),
     Slot(ENDDATE, EncodedOption(p.endDate)),
     Slot(SORTFIELD, EncodedOption(p.sortField)),
     Slot(SORTORDER, EncodedOption(p.sortOrder)),
     Slot(LIMIT, IntOption(p.limit)),
     Slot(OFFSET, IntOption(p.offset))]
  }

  lemma ListSlotsTable(p: ListParams)
    ensures |ListSlots(p)| == 12
    ensures ListSlots(p)[0] == Slot(DATASETID, EncodedOption(p.datasetId))
    ensures ListSlots(p)[1] == Slot(LOCATIONID, EncodedOption(p.locationId))
    ensures ListSlots(p)[2] == Slot(STATIONID, EncodedOption(p.stationId))
    ensures ListSlots(p)[3] == Slot(DATATYPEID, EncodedOption(p.dataTypeId))
    ensures ListSlots(p)[4] == Slot(DATACATEGORYID, EncodedOption(p.dataCategoryId))
    ensures ListSlots(p)[5] == Slot(LOCATIONCATEGORYID, EncodedOption(p.locationCategoryId))
    ensures ListSlots(p)[6] == Slot(STARTDATE, EncodedOption(p.startDate))
    ensures ListSlots(p)[7] == Slot(ENDDATE, EncodedOption(p.endDate))
    ensures ListSlots(p)[8] == Slot(SORTFIELD, EncodedOption(p.sortField))
    ensures ListSlots(p)[9] == Slot(SORTORDER, EncodedOption(p.sortOrder))
    ensures ListSlots(p)[10] == Slot(LIMIT, IntOption(p.limit))
    ensures ListSlots(p)[11] == Slot(OFFSET, IntOption(p.offset))
  {
  }

  function DataHead(p: GetDataParams): seq<Slot> {
    [Slot(DATASETID, Some(Encoded(p.datasetId))),
     Slot(STARTDATE, Some(Encoded(p.startDate))),
     Slot(ENDDATE, Some(Encoded(p.endDate)))]
  }

  function DataTypeSlots(p: GetDataParams): (slots: seq<Slot>)
    ensures forall i :: 0 <= i < |slots| ==> slots[i].key == DATATYPEID && slots[i].raw.Some?
  {
    match p.dataTypeIds
    case None => []
    case Some(ids) =>
      seq(|ids|, i requires 0 <= i < |ids| => Slot(DATATYPEID, Some(Encoded(ids[i]))))
  }

  function DataTail(p: GetDataParams): seq<Slot> {
    [Slot(LOCATIONID, EncodedOption(p.locationId)),
     Slot(STATIONID, EncodedOption(p.stationId)),
     Slot(SORTFIELD, EncodedOption(p.sortField)),
     Slot(SORTORDER, EncodedOption(p.sortOrder)),
     Slot(LIMIT, IntOption(p.limit)),
     Slot(OFFSET, IntOption(p.offset)),
     Slot(UNITS, EncodedOption(p.units)),
     Slot(INCLUDEMETADATA, BoolOption(p.includeMetadata))]
  }

  lemma DataTailTable(p: GetDataParams)
    ensures |DataTail(p)| == 8
    ensures DataTail(p)[0] == Slot(LOCATIONID, EncodedOption(p.locationId))
    ensures DataTail(p)[1] == Slot(STATIONID, EncodedOption(p.stationId))
    ensures DataTail(p)[2] == Slot(SORTFIELD, EncodedOption(p.sortField))
    ensures DataTail(p)[3] == Slot(SORTORDER, EncodedOption(p.sortOrder))
    ensures DataTail(p)[4] == Slot(LIMIT, IntOption(p.limit))
    ensures DataTail(p)[5] == Slot(OFFSET, IntOption(p.offset))
    ensures DataTail(p)[6] == Slot(UNITS, EncodedOption(p.units))
    ensures DataTail(p)[7] == Slot(INCLUDEMETADATA, BoolOption(p.includeMetadata))
  {
  }

  function DataSlots(p: GetDataParams): seq<Slot> {
    DataHead(p) + DataTypeSlots(p) + DataTail(p)
  }

  function RequestSlots(p: DataRequestParams): seq<Slot> {
    [Slot(DATASET, Some(Encoded(p.dataset))),
     Slot(START_DATE, EncodedOption(p.startDate)),
     Slot(END_DATE, EncodedOption(p.endDate)),
     Slot(STATIONS, ListOption(p.stations)),
     Slot(DATA_TYPES, ListOption(p.dataTypes)),
     Slot(FORMAT, FormatOption(p.format)),
     Slot(UNITS, EncodedOption(p.units)),
     Slot(BOUNDING_BOX, EncodedOption(p.bbox)),
     Slot(INCLUDE_ATTRIBUTES, BoolOption(p.includeAttributes)),
     Slot(INCLUDE_STATION_NAME, BoolOption(p.includeStationName)),
     Slot(INCLUDE_STATION_LOCATION, BoolOption(p.includeStationLocation))]
  }

  lemma RequestSlotsTable(p: DataRequestParams)
    ensures |RequestSlots(p)| == 11
    ensures RequestSlots(p)[0] == Slot(DATASET, Some(Encoded(p.dataset)))
    ensures RequestSlots(p)[1] == Slot(START_DATE, EncodedOption(p.startDate))
    ensures RequestSlots(p)[2] == Slot(END_DATE, EncodedOption(p.endDate))
    ensures RequestSlots(p)[3] == Slot(STATIONS, ListOption(p.stations))
    ensures RequestSlots(p)[4] == Slot(DATA_TYPES, ListOption(p.dataTypes))
    ensures RequestSlots(p)[5] == Slot(FORMAT, FormatOption(p.format))
    ensures RequestSlots(p)[6] == Slot(UNITS, EncodedOption(p.units))
    ensures RequestSlots(p)[7] == Slot(BOUNDING_BOX, EncodedOption(p.bbox))
    ensures RequestSlots(p)[8] == Slot(INCLUDE_ATTRIBUTES, BoolOption(p.includeAttributes))
    ensures RequestSlots(p)[9] == Slot(INCLUDE_STATION_NAME, BoolOption(p.includeStationName))
    ensures RequestSlots(p)[10] == Slot(INCLUDE_STATION_LOCATION, BoolOption(p.includeStationLocation))
  {
  }

  /** A URL that holds the first `n` slots so far, and the separator the next field takes. */
  predicate Building(url: Bytes, sep: Byte, base: Bytes, slots: seq<Slot>, n: nat) {
    n <= |slots| && url == UrlOf(base, Present(slots[..n]))
    && sep == if Present(slots[..n]) == [] then '?' else '&'
  }

  /** The `append` step: nothing for an absent value, else separator, key, '=' and the text. */
  method Append(url: Bytes, sep: Byte, key: Key, raw: Option<Bytes>,
                ghost base: Bytes, ghost slots: seq<Slot>, ghost n: nat)
    returns (url': Bytes, sep': Byte)
    requires n < |slots| && slots[n] == Slot(key, raw)
    requires Building(url, sep, base, slots, n)
    ensures Building(url', sep', base, slots, n + 1)
  {
    BuildingStep(url, sep, base, slots, n);
    url', sep' := url, sep;
    if raw.Some? {
      url' := url + [sep] + (key + ['='] + raw.value);
      sep' := '&';
    }
  }

  lemma BuildingStep(url: Bytes, sep: Byte, base: Bytes, slots: seq<Slot>, n: nat)
    requires n < |slots| && Building(url, sep, base, slots, n)
    ensures match slots[n].raw
            case None => Building(url, sep, base, slots, n + 1)
            case Some(raw) => Building(url + [sep] + (slots[n].key + ['='] + raw), '&', base, slots, n + 1)
  {
    PresentOfConcat(slots[..n], [slots[n]]);
    assert slots[..n + 1] == slots[..n] + [slots[n]];
    assert [slots[n]][1..] == [];
    if slots[n].raw.Some? {
      UrlOfAppend(base, Present(slots[..n]), Field(slots[n].key, slots[n].raw.value));
      assert Present([slots[n]]) == [Field(slots[n].key, slots[n].raw.value)];
    } else {
      assert Present([slots[n]]) == [];
      assert Present(slots[..n + 1]) == Present(slots[..n]);
    }
  }

  lemma Started(base: Bytes, slots: seq<Slot>)
    ensures Building(base, '?', base, slots, 0)
  {
  }

  lemma Finished(url: Bytes, sep: Byte, base: Bytes, slots: seq<Slot>)
    requires Building(url, sep, base, slots, |slots|)
    ensures url == UrlOf(base, Present(slots))
  {
    assert slots[..|slots|] == slots;
  }

  method BuildListQuery(base: Bytes, p: ListParams) returns (url: Bytes)
    ensures url == UrlOf(base, Present(ListSlots(p)))
  {
    hide EncodedOption, IntOption, Present, UrlOf, Building;
    ListSlotsTable(p);
    ghost var ss := ListSlots(p);
    Started(base, ss);
    hide ListSlots;
    var sep: Byte;
    url, sep := base, '?';
    url, sep := Append(url, sep, DATASETID, EncodedOption(p.datasetId), base, ss, 0);
    url, sep := Append(url, sep, LOCATIONID, EncodedOption(p.locationId), base, ss, 1);
    url, sep := Append(url, sep, STATIONID, EncodedOption(p.stationId), base, ss, 2);
    url, sep := Append(url, sep, DATATYPEID, EncodedOption(p.dataTypeId), base, ss, 3);
    url, sep := Append(url, sep, DATACATEGORYID, EncodedOption(p.dataCategoryId), base, ss, 4);
    url, sep := Append(url, sep, LOCATIONCATEGORYID, EncodedOption(p.locationCategoryId), base, ss, 5);
    url, sep := Append(url, sep, STARTDATE, EncodedOption(p.startDate), base, ss, 6);
    url, sep := Append(url, sep, ENDDATE, EncodedOption(p.endDate), base, ss, 7);
    url, sep := Append(url, sep, SORTFIELD, EncodedOption(p.sortField), base, ss, 8);
    url, sep := Append(url, sep, SORTORDER, EncodedOption(p.sortOrder), base, ss, 9);
    EncodedInt(p.limit);
    EncodedInt(p.offset);
    url, sep := Append(url, sep, LIMIT, EncodedOption(IntOption(p.limit)), base, ss, 10);
    url, sep := Append(url, sep, OFFSET, EncodedOption(IntOption(p.offset)), base, ss, 11);
    Finished(url, sep, base, ss);
  }

  const DATA_BASE: Bytes := "/data"
  const REQUEST_BASE: Bytes := "/data/v1"

  method BuildDataQuery(p: GetDataParams) returns (url: Bytes)
    ensures url == UrlOf(DATA_BASE, Present(DataSlots(p)))
  {
    hide EncodedOption, IntOption, BoolOption, Present, UrlOf, Building, DataTail, DataTypeSlots;
    ghost var ss, m := DataSlots(p), |DataTypeSlots(p)|;
    DataTailTable(p);
    Started(DATA_BASE, ss);
    var sep: Byte;
    url, sep := DATA_BASE, '?';
    url, sep := Append(url, sep, DATASETID, Some(Encoded(p.datasetId)), DATA_BASE, ss, 0);
    url, sep := Append(url, sep, STARTDATE, Some(Encoded(p.startDate)), DATA_BASE, ss, 1);
    url, sep := Append(url, sep, ENDDATE, Some(Encoded(p.endDate)), DATA_BASE, ss, 2);
    url, sep := AppendDataTypes(url, sep, p, ss);
    url, sep := AppendDataTail(url, sep, p, ss, 3 + m);
    Finished(url, sep, DATA_BASE, ss);
  }

  method AppendDataTypes(url: Bytes, sep: Byte, p: GetDataParams, ghost ss: seq<Slot>)
    returns (url': Bytes, sep': Byte)
    requires ss == DataSlots(p) && Building(url, sep, DATA_BASE, ss, 3)
    ensures Building(url', sep', DATA_BASE, ss, 3 + |DataTypeSlots(p)|)
  {
    hide Building, Encoded, DataTail;
    url', sep' := url, sep;
    if p.dataTypeIds.Some? {
      var ids := p.dataTypeIds.value;
      for i := 0 to |ids|
        invariant Building(url', sep', DATA_BASE, ss, 3 + i)
      {
        assert ss[3 + i] == DataTypeSlots(p)[i];
        url', sep' := Append(url', sep', DATATYPEID, Some(Encoded(ids[i])), DATA_BASE, ss, 3 + i);
      }
    }
  }

  method AppendDataTail(url: Bytes, sep: Byte, p: GetDataParams, ghost ss: seq<Slot>, ghost n: nat)
    returns (url': Bytes, sep': Byte)
    requires n + 8 == |ss| && forall i :: 0 <= i < 8 ==> ss[n + i] == DataTail(p)[i]
    requires Building(url, sep, DATA_BASE, ss, n)
    ensures Building(url', sep', DATA_BASE, ss, n + 8)
  {
    hide EncodedOption, IntOption, BoolOption, Building, DataTail;
    DataTailTable(p);
    url', sep' := Append(url, sep, LOCATIONID, EncodedOption(p.locationId), DATA_BASE, ss, n);
    url', sep' := Append(url', sep', STATIONID, EncodedOption(p.stationId), DATA_BASE, ss, n + 1);
    url', sep' := Append(url', sep', SORTFIELD, EncodedOption(p.sortField), DATA_BASE, ss, n + 2);
    url', sep' := Append(url', sep', SORTORDER, EncodedOption(p.sortOrder), DATA_BASE, ss, n + 3);
    url', sep' := Append(url', sep', LIMIT, IntOption(p.limit), DATA_BASE, ss, n + 4);
    url', sep' := Append(url', sep', OFFSET, IntOption(p.offset), DATA_BASE, ss, n + 5);
    url', sep' := Append(url', sep', UNITS, EncodedOption(p.units), DATA_BASE, ss, n + 6);
    url', sep' := Append(url', sep', INCLUDEMETADATA, BoolOption(p.includeMetadata), DATA_BASE, ss, n + 7);
  }

  method BuildRequestQuery(p: DataRequestParams) returns (url: Bytes)
    ensures url == UrlOf(REQUEST_BASE, Present(RequestSlots(p)))
  {
    hide EncodedOption, ListOption, FormatOption, BoolOption, Present, UrlOf, Building;
    RequestSlotsTable(p);
    ghost var ss := RequestSlots(p);
    Started(REQUEST_BASE, ss);
    hide RequestSlots;
    var sep: Byte;
    url, sep := REQUEST_BASE, '?';
    url, sep := Append(url, sep, DATASET, Some(Encoded(p.dataset)), REQUEST_BASE, ss, 0);
    url, sep := Append(url, sep, START_DATE, EncodedOption(p.startDate), REQUEST_BASE, ss, 1);
    url, sep := Append(url, sep, END_DATE, EncodedOption(p.endDate), REQUEST_BASE, ss, 2);
    url, sep := AppendList(url, sep, STATIONS, p.stations, REQUEST_BASE, ss, 3);
    url, sep := AppendList(url, sep, DATA_TYPES, p.dataTypes, REQUEST_BASE, ss, 4);
    url, sep := Append(url, sep, FORMAT, FormatOption(p.format), REQUEST_BASE, ss, 5);
    url, sep := Append(url, sep, UNITS, EncodedOption(p.units), REQUEST_BASE, ss, 6);
    url, sep := Append(url, sep, BOUNDING_BOX, EncodedOption(p.bbox), REQUEST_BASE, ss, 7);
    url, sep := Append(url, sep, INCLUDE_ATTRIBUTES, BoolOption(p.includeAttributes), REQUEST_BASE, ss, 8);
    url, sep := Append(url, sep, INCLUDE_STATION_NAME, BoolOption(p.includeStationName), REQUEST_BASE, ss, 9);
    url, sep := Append(url, sep, INCLUDE_STATION_LOCATION, BoolOption(p.includeStationLocation), REQUEST_BASE, ss, 10);
    Finished(url, sep, REQUEST_BASE, ss);
  }

  method AppendList(url: Bytes, sep: Byte, key: Key, values: Option<seq<Bytes>>,
                    ghost base: Bytes, ghost slots: seq<Slot>, ghost n: nat)
    returns (url': Bytes, sep': Byte)
    requires n < |slots| && slots[n] == Slot(key, ListOption(values))
    requires Building(url, sep, base, slots, n)
    ensures Building(url', sep', base, slots, n + 1)
  {
    BuildingStep(url, sep, base, slots, n);
    hide Building;
    url', sep' := url, sep;
    if values.Some? {
      url' := AppendElements(url, [sep] + (key + ['=']), values.value);
      if values.value != [] {
        sep' := '&';
        ghost var joined := Join<Byte>(EncodedAll(values.value), ',');
        Regroup(url, [sep], key + ['='], joined);
      }
    }
  }

  lemma Regroup(a: Bytes, b: Bytes, c: Bytes, d: Bytes)
    ensures a + (b + c + d) == a + b + (c + d)
  {
  }

  /** The loop over a list: the first element brings the separator and the key, the others a comma. */
  method AppendElements(url: Bytes, lead: Bytes, vs: seq<Bytes>) returns (url': Bytes)
    ensures url' == if vs == [] then url else url + (lead + Join<Byte>(EncodedAll(vs), ','))
  {
    hide Encoded, Join, EncodedAll;
    url' := url;
    var first := true;
    ghost var joined: Bytes := [];
    for i := 0 to |vs|
      invariant first <==> i == 0
      invariant i > 0 ==> joined == Join<Byte>(EncodedAll(vs[..i]), ',')
      invariant url' == if first then url else url + (lead + joined)
    {
      var e := Encode(vs[i]);
      ElementAppended(vs, i);
      ghost var before := joined;
      joined := if first then e else before + [','] + e;
      Regroup(url, lead, before, [',']);
      Regroup(url, lead, before + [','], e);
      url' := url' + ((if first then lead else [',']) + e);
      assert url' == url + (lead + joined);
      first := false;
    }
    assert vs[..|vs|] == vs;
  }

  lemma ElementAppended(vs: seq<Bytes>, i: nat)
    requires i < |vs|
    ensures var all := Join<Byte>(EncodedAll(vs[..i + 1]), ',');
            all == if i == 0 then Encoded(vs[i]) else Join<Byte>(EncodedAll(vs[..i]), ',') + [','] + Encoded(vs[i])
  {
    hide Encoded, Join;
    assert EncodedAll(vs[..i + 1]) == EncodedAll(vs[..i]) + [Encoded(vs[i])];
    JoinOfAppended(EncodedAll(vs[..i]), Encoded(vs[i]));
  }

  lemma JoinOfAppended(parts: seq<Bytes>, e: Bytes)
    ensures Join<Byte>(parts + [e], ',') == if parts == [] then e else Join<Byte>(parts, ',') + [','] + e
  {
    if parts != [] {
      JoinAppend<Byte>(parts, e, ',');
    } else {
      assert parts + [e] == [e];
    }
  }
}
