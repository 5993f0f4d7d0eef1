/**
 The URLs that the query builders send, written out with the parameter names of the two services
 (src/api/cdo_client.cpp, src/api/data_service_client.cpp). */
module UrlText {
  import opened Core
  import opened Numerals
  import opened Lists
  import opened Url
  import opened Query

  function Concatenated(parts: seq<Bytes>): Bytes {
    if parts == [] then [] else parts[0] + Concatenated(parts[1..])
  }

  // An optional piece of a URL: nothing for an absent value.
  function Part(name: Bytes, value: Option<Bytes>): Bytes {
    match value case Some(v) => name + Encoded(v) case None => []
  }

  function Number(name: Bytes, value: Option<Int32>): Bytes {
    match value case Some(n) => name + DecimalText(n) case None => []
  }

  function Flag(name: Bytes, value: Option<bool>): Bytes {
    match value case Some(b) => name + (if b then "true" else "false") case None => []
  }

  function Format(name: Bytes, value: Option<ResponseFormat>): Bytes {
    match value
    case None => []
    case Some(CSV) => name + "csv"
    case Some(JSON) => name + "json"
    case Some(SSV) => name + "ssv"
    case Some(PDF) => name + "pdf"
    case Some(NetCDF) => name + "netcdf"
  }

  /** One piece for every value, each with the name. */
  function Repeated(name: Bytes, values: Option<seq<Bytes>>): Bytes {
    match values
    case None => []
    case Some(vs) => Concatenated(seq(|vs|, i requires 0 <= i < |vs| => name + Encoded(vs[i])))
  }

  /** One piece for all values, with commas between them. */
  function Listed(name: Bytes, values: Option<seq<Bytes>>): Bytes {
    match values
    case None => []
    case Some(vs) =>
      if vs == [] then []
      else name + Join<Byte>(seq(|vs|, i requires 0 <= i < |vs| => Encoded(vs[i])), ',')
  }

  // ------------------------------------------------------ slots as text

  function SlotText(s: Slot): Bytes {
    match s.raw case Some(raw) => ['&'] + s.key + ['='] + raw case None => []
  }

  function SlotTexts(slots: seq<Slot>): (ts: seq<Bytes>)
    ensures |ts| == |slots| && forall i :: 0 <= i < |ts| ==> ts[i] == SlotText(slots[i])
  {
    seq(|slots|, i requires 0 <= i < |slots| => SlotText(slots[i]))
  }

  function FieldTail(fs: seq<Field>): Bytes {
    if fs == [] then [] else ['&'] + Text(fs[0]) + FieldTail(fs[1..])
  }

  lemma {:induction false} TailOfPresent(slots: seq<Slot>)
    ensures Concatenated(SlotTexts(slots)) == FieldTail(Present(slots))
  {
    if slots == [] {
    } else {
      TailOfPresent(slots[1..]);
      assert SlotTexts(slots)[1..] == SlotTexts(slots[1..]);
      hide FieldTail;
      if slots[0].raw.Some? {
        var f := Field(slots[0].key, slots[0].raw.value);
        TailUnfold(f, Present(slots[1..]));
        assert SlotText(slots[0]) == ['&'] + Text(f);
      } else {
        assert [] + FieldTail(Present(slots[1..])) == FieldTail(Present(slots[1..]));
      }
    }
  }

  lemma TailUnfold(f: Field, fs: seq<Field>)
    ensures FieldTail([f] + fs) == ['&'] + Text(f) + FieldTail(fs)
  {
    assert ([f] + fs)[1..] == fs;
  }

  lemma {:induction false} TailIsJoin(fs: seq<Field>)
    requires fs != []
    ensures FieldTail(fs) == ['&'] + Join<Byte>(Texts(fs), '&')
  {
    if |fs| == 1 {
      assert fs[1..] == [];
    } else {
      TailIsJoin(fs[1..]);
      assert Texts(fs)[1..] == Texts(fs[1..]);
      var head, tail := Text(fs[0]), Join<Byte>(Texts(fs[1..]), '&');
      assert ['&'] + head + (['&'] + tail) == ['&'] + (head + ['&'] + tail);
    }
  }

  /** The URL of some fields: the pieces of the present ones, the first '&' turned into '?'. */
  lemma UrlOfSlots(base: Bytes, slots: seq<Slot>)
    ensures var text := Concatenated(SlotTexts(slots));
            UrlOf(base, Present(slots)) == if text == [] then base else base + ['?'] + text[1..]
  {
    var fs := Present(slots);
    TailOfPresent(slots);
    if fs != [] {
      TailIsJoin(fs);
    }
  }

  lemma {:induction false} ConcatenatedAppend(a: seq<Bytes>, b: seq<Bytes>)
    ensures Concatenated(a + b) == Concatenated(a) + Concatenated(b)
  {
    if a == [] {
      assert a + b == b;
    } else {
      assert (a + b)[1..] == a[1..] + b;
      ConcatenatedAppend(a[1..], b);
      var x, y, z := a[0], Concatenated(a[1..]), Concatenated(b);
      assert x + (y + z) == x + y + z;
    }
  }

  predicate Names(name: Bytes, key: Key) {
    name == ['&'] + key + ['=']
  }

  lemma PartText(key: Key, name: Bytes, value: Option<Bytes>)
    requires Names(name, key)
    ensures SlotText(Slot(key, EncodedOption(value))) == Part(name, value)
  {
  }

  lemma NumberText(key: Key, name: Bytes, value: Option<Int32>)
    requires Names(name, key)
    ensures SlotText(Slot(key, IntOption(value))) == Number(name, value)
  {
  }

  lemma FlagText(key: Key, name: Bytes, value: Option<bool>)
    requires Names(name, key)
    ensures SlotText(Slot(key, BoolOption(value))) == Flag(name, value)
  {
  }

  lemma FormatIsText(key: Key, name: Bytes, value: Option<ResponseFormat>)
    requires Names(name, key)
    ensures SlotText(Slot(key, FormatOption(value))) == Format(name, value)
  {
  }

  lemma ListedText(key: Key, name: Bytes, values: Option<seq<Bytes>>)
    requires Names(name, key)
    ensures SlotText(Slot(key, ListOption(values))) == Listed(name, values)
  {
    if values.Some? {
      var vs := values.value;
      assert EncodedAll(vs) == seq(|vs|, i requires 0 <= i < |vs| => Encoded(vs[i]));
    }
  }

  // ------------------------------------------------------- the three URLs

  lemma IdNames()
    ensures Names("&datasetid=", DATASETID)
    ensures Names("&locationid=", LOCATIONID)
    ensures Names("&stationid=", STATIONID)
    ensures Names("&datatypeid=", DATATYPEID)
    ensures Names("&datacategoryid=", DATACATEGORYID)
    ensures Names("&locationcategoryid=", LOCATIONCATEGORYID)
  {
  }

  lemma DateNames()
    ensures Names("&startdate=", STARTDATE)
    ensures Names("&enddate=", ENDDATE)
  {
  }

  lemma OrderNames()
    ensures Names("&sortfield=", SORTFIELD)
    ensures Names("&sortorder=", SORTORDER)
    ensures Names("&limit=", LIMIT)
    ensures Names("&offset=", OFFSET)
    ensures Names("&units=", UNITS)
    ensures Names("&includemetadata=", INCLUDEMETADATA)
  {
  }

  lemma RequestNames()
    ensures Names("&dataset=", DATASET)
    ensures Names("&startDate=", START_DATE)
    ensures Names("&endDate=", END_DATE)
    ensures Names("&stations=", STATIONS)
    ensures Names("&dataTypes=", DATA_TYPES)
    ensures Names("&format=", FORMAT)
  {
  }

  lemma OptionNames()
    ensures Names("&boundingBox=", BOUNDING_BOX)
    ensures Names("&includeAttributes=", INCLUDE_ATTRIBUTES)
  {
  }

  lemma StationNames()
    ensures Names("&includeStationName=", INCLUDE_STATION_NAME)
    ensures Names("&includeStationLocation=", INCLUDE_STATION_LOCATION)
  {
  }

  /** The URL of a list request: its pieces in order, the first '&' turned into '?'. */
  lemma ListUrlText(base: Bytes, p: ListParams) returns (pieces: seq<Bytes>)
    ensures pieces ==
            [Part("&datasetid=", p.datasetId),
             Part("&locationid=", p.locationId),
             Part("&stationid=", p.stationId),
             Part("&datatypeid=", p.dataTypeId),
             Part("&datacategoryid=", p.dataCategoryId),
             Part("&locationcategoryid=", p.locationCategoryId),
             Part("&startdate=", p.startDate),
             Part("&enddate=", p.endDate),
             Part("&sortfield=", p.sortField),
             Part("&sortorder=", p.sortOrder),
             Number("&limit=", p.limit),
             Number("&offset=", p.offset)]
    ensures var text := Concatenated(pieces);
            UrlOf(base, Present(ListSlots(p))) == if text == [] then base else base + ['?'] + text[1..]
  {
    ListSlotsTable(p);
    IdNames();
    DateNames();
    OrderNames();
    hide *;
    PartText(DATASETID, "&datasetid=", p.datasetId);
    PartText(LOCATIONID, "&locationid=", p.locationId);
    PartText(STATIONID, "&stationid=", p.stationId);
    PartText(DATATYPEID, "&datatypeid=", p.dataTypeId);
    PartText(DATACATEGORYID, "&datacategoryid=", p.dataCategoryId);
    PartText(LOCATIONCATEGORYID, "&locationcategoryid=", p.locationCategoryId);
    PartText(STARTDATE, "&startdate=", p.startDate);
    PartText(ENDDATE, "&enddate=", p.endDate);
    PartText(SORTFIELD, "&sortfield=", p.sortField);
    PartText(SORTORDER, "&sortorder=", p.sortOrder);
    NumberText(LIMIT, "&limit=", p.limit);
    NumberText(OFFSET, "&offset=", p.offset);
    pieces := SlotTexts(ListSlots(p));
    UrlOfSlots(base, ListSlots(p));
  }

  lemma {:induction false} RepeatedText(name: Bytes, slots: seq<Slot>, vs: seq<Bytes>)
    requires |slots| == |vs| && Names(name, DATATYPEID)
    requires forall i :: 0 <= i < |vs| ==> slots[i] == Slot(DATATYPEID, Some(Encoded(vs[i])))
    ensures Concatenated(SlotTexts(slots)) == Repeated(name, Some(vs))
  {
    var texts := seq(|vs|, i requires 0 <= i < |vs| => name + Encoded(vs[i]));
    assert SlotTexts(slots) == texts;
  }

  lemma DataTypesText(p: GetDataParams)
    ensures Concatenated(SlotTexts(DataTypeSlots(p))) == Repeated("&datatypeid=", p.dataTypeIds)
  {
    IdNames();
    hide Names;
    if p.dataTypeIds.Some? {
      RepeatedText("&datatypeid=", DataTypeSlots(p), p.dataTypeIds.value);
    }
  }

  lemma DataTailText(p: GetDataParams)
    ensures SlotTexts(DataTail(p)) ==
            [Part("&locationid=", p.locationId),
             Part("&stationid=", p.stationId),
             Part("&sortfield=", p.sortField),
             Part("&sortorder=", p.sortOrder),
             Number("&limit=", p.limit),
             Number("&offset=", p.offset),
             Part("&units=", p.units),
             Flag("&includemetadata=", p.includeMetadata)]
  {
    DataTailTable(p);
    IdNames();
    OrderNames();
    hide *;
    PartText(LOCATIONID, "&locationid=", p.locationId);
    PartText(STATIONID, "&stationid=", p.stationId);
    PartText(SORTFIELD, "&sortfield=", p.sortField);
    PartText(SORTORDER, "&sortorder=", p.sortOrder);
    NumberText(LIMIT, "&limit=", p.limit);
    NumberText(OFFSET, "&offset=", p.offset);
    PartText(UNITS, "&units=", p.units);
    FlagText(INCLUDEMETADATA, "&includemetadata=", p.includeMetadata);
  }

  lemma DataHeadText(p: GetDataParams)
    ensures Concatenated(SlotTexts(DataHead(p)))
            == "&datasetid=" + Encoded(p.datasetId)
               + ("&startdate=" + Encoded(p.startDate) + "&enddate=" + Encoded(p.endDate))
  {
    var texts := SlotTexts(DataHead(p));
    HeadTable(p);
    IdNames();
    DateNames();
    RequiredOption(p.datasetId);
    RequiredOption(p.startDate);
    RequiredOption(p.endDate);
    hide *;
    PartText(DATASETID, "&datasetid=", Some(p.datasetId));
    PartText(STARTDATE, "&startdate=", Some(p.startDate));
    PartText(ENDDATE, "&enddate=", Some(p.endDate));
    PartIs("&datasetid=", p.datasetId);
    PartIs("&startdate=", p.startDate);
    PartIs("&enddate=", p.endDate);
    ThreePieces(texts);
  }

  lemma HeadTable(p: GetDataParams)
    ensures var slots := DataHead(p);
            && |slots| == 3
            && slots[0] == Slot(DATASETID, Some(Encoded(p.datasetId)))
            && slots[1] == Slot(STARTDATE, Some(Encoded(p.startDate)))
            && slots[2] == Slot(ENDDATE, Some(Encoded(p.endDate)))
  {
  }

  lemma PartIs(name: Bytes, value: Bytes)
    ensures Part(name, Some(value)) == name + Encoded(value)
  {
  }

  lemma ThreePieces(texts: seq<Bytes>)
    requires |texts| == 3
    ensures Concatenated(texts) == texts[0] + (texts[1] + texts[2])
  {
    assert texts == [texts[0]] + ([texts[1]] + ([texts[2]] + []));
    FirstPiece(texts[0], [texts[1]] + ([texts[2]] + []));
    FirstPiece(texts[1], [texts[2]] + []);
    FirstPiece(texts[2], []);
  }

  /** The URL of a data request. */
  lemma DataUrlText(p: GetDataParams)
    ensures UrlOf(DATA_BASE, Present(DataSlots(p))) ==
            "/data?datasetid=" + Encoded(p.datasetId)
            + ("&startdate=" + Encoded(p.startDate) + "&enddate=" + Encoded(p.endDate))
            + Repeated("&datatypeid=", p.dataTypeIds)
            + Concatenated(
              [Part("&locationid=", p.locationId),
               Part("&stationid=", p.stationId),
               Part("&sortfield=", p.sortField),
               Part("&sortorder=", p.sortOrder),
               Number("&limit=", p.limit),
               Number("&offset=", p.offset),
               Part("&units=", p.units),
               Flag("&includemetadata=", p.includeMetadata)])
  {
    var a, b, c := DataHead(p), DataTypeSlots(p), DataTail(p);
    SlotsAre(p);
    hide *;
    UrlOfSlots(DATA_BASE, a + b + c);
    SlotTextsAppend(a, b);
    SlotTextsAppend(a + b, c);
    DataHeadText(p);
    DataTypesText(p);
    DataTailText(p);
    DataStart(Encoded(p.datasetId), "&startdate=" + Encoded(p.startDate) + "&enddate=" + Encoded(p.endDate),
              Repeated("&datatypeid=", p.dataTypeIds), Concatenated(SlotTexts(c)));
  }

  lemma SlotsAre(p: GetDataParams)
    ensures DataSlots(p) == DataHead(p) + DataTypeSlots(p) + DataTail(p)
  {
  }

  lemma DataStart(dataset: Bytes, dates: Bytes, x: Bytes, y: Bytes)
    ensures var text := "&datasetid=" + dataset + dates + x + y;
            && text != []
            && DATA_BASE + ['?'] + text[1..] == "/data?datasetid=" + dataset + dates + x + y
  {
    var rest := dataset + dates + x + y;
    Regrouped("&datasetid=", dataset, dates, x, y);
    Regrouped("/data?datasetid=", dataset, dates, x, y);
    AfterFirst("&datasetid=", rest);
    DataNames();
    Regrouped(DATA_BASE, ['?'], "datasetid=", rest, rest);
  }

  lemma DataNames()
    ensures "&datasetid="[1..] == "datasetid="
    ensures DATA_BASE + ['?'] + "datasetid=" == "/data?datasetid="
  {
  }

  lemma SlotTextsAppend(a: seq<Slot>, b: seq<Slot>)
    ensures Concatenated(SlotTexts(a + b)) == Concatenated(SlotTexts(a)) + Concatenated(SlotTexts(b))
  {
    hide Concatenated, SlotText;
    ConcatenatedAppend(SlotTexts(a), SlotTexts(b));
    assert SlotTexts(a + b) == SlotTexts(a) + SlotTexts(b);
  }

  lemma Regrouped(name: Bytes, first: Bytes, dates: Bytes, x: Bytes, y: Bytes)
    ensures name + first + dates + x + y == name + (first + dates + x + y)
    ensures name + first + (dates + x) == name + first + dates + x
  {
  }

  lemma AfterFirst(name: Bytes, rest: Bytes)
    requires name != []
    ensures (name + rest)[1..] == name[1..] + rest
  {
  }

  /** The URL of a request to the Access Data Service. */
  lemma RequestUrlText(p: DataRequestParams) returns (pieces: seq<Bytes>)
    ensures pieces ==
            [Part("&dataset=", Some(p.dataset)),
             Part("&startDate=", p.startDate),
             Part("&endDate=", p.endDate),
             Listed("&stations=", p.stations),
             Listed("&dataTypes=", p.dataTypes),
             Format("&format=", p.format),
             Part("&units=", p.units),
             Part("&boundingBox=", p.bbox),
             Flag("&includeAttributes=", p.includeAttributes),
             Flag("&includeStationName=", p.includeStationName),
             Flag("&includeStationLocation=", p.includeStationLocation)]
    ensures UrlOf(REQUEST_BASE, Present(RequestSlots(p)))
            == "/data/v1?dataset=" + Encoded(p.dataset) + Concatenated(pieces[1..])
  {
    RequestSlotsTable(p);
    RequestNames();
    OrderNames();
    OptionNames();
    StationNames();
    hide *;
    PartText(DATASET, "&dataset=", Some(p.dataset));
    PartText(START_DATE, "&startDate=", p.startDate);
    PartText(END_DATE, "&endDate=", p.endDate);
    ListedText(STATIONS, "&stations=", p.stations);
    ListedText(DATA_TYPES, "&dataTypes=", p.dataTypes);
    FormatIsText(FORMAT, "&format=", p.format);
    PartText(UNITS, "&units=", p.units);
    PartText(BOUNDING_BOX, "&boundingBox=", p.bbox);
    FlagText(INCLUDE_ATTRIBUTES, "&includeAttributes=", p.includeAttributes);
    FlagText(INCLUDE_STATION_NAME, "&includeStationName=", p.includeStationName);
    FlagText(INCLUDE_STATION_LOCATION, "&includeStationLocation=", p.includeStationLocation);
    RequiredOption(p.dataset);
    pieces := SlotTexts(RequestSlots(p));
    UrlOfSlots(REQUEST_BASE, RequestSlots(p));
    RequestStart(p.dataset, pieces);
  }

  lemma RequiredOption(value: Bytes)
    ensures EncodedOption(Some(value)) == Some(Encoded(value))
  {
  }

  lemma RequestStart(dataset: Bytes, pieces: seq<Bytes>)
    requires pieces != [] && pieces[0] == Part("&dataset=", Some(dataset))
    ensures var text := Concatenated(pieces);
            && text != []
            && REQUEST_BASE + ['?'] + text[1..] == "/data/v1?dataset=" + Encoded(dataset) + Concatenated(pieces[1..])
  {
    hide Encoded;
    var rest := Encoded(dataset) + Concatenated(pieces[1..]);
    assert "&dataset=" + Encoded(dataset) + Concatenated(pieces[1..]) == "&dataset=" + rest;
    AfterFirst("&dataset=", rest);
    assert "&dataset="[1..] == "dataset=" && REQUEST_BASE + ['?'] + "dataset=" == "/data/v1?dataset=";
  }

  lemma FirstPiece(first: Bytes, rest: seq<Bytes>)
    ensures Concatenated([first] + rest) == first + Concatenated(rest)
  {
    assert ([first] + rest)[1..] == rest;
  }
}
