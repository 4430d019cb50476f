/**
 * The map `SpeedAssigner::tables` (src/mjolnir/speed_assigner.h): region code to the
 * pair of speed tables, as the constructor loads it from the configuration document,
 * and the fallback chain `FromConfig` looks regions up with.
 */
module RegionIndex {

  import opened Wrappers
  import opened Json
  import opened SpeedTables

  /** Positions in a region's pair of tables. */
  const Urban: nat := 0
  const Rural: nat := 1

  type Tables = map<string, seq<SpeedTable>>

  /** An `std::array<SpeedTable, 2>` of two well-shaped tables. */
  predicate ValidPair(pair: seq<SpeedTable>) {
    |pair| == 2 && WellShaped(pair[Urban]) && WellShaped(pair[Rural])
  }

  /** Every entry of the map holds a pair of well-shaped tables. */
  predicate ValidTables(tables: Tables) {
    forall code :: code in tables ==> ValidPair(tables[code])
  }

  /** Every key of the map is a region code, so it holds the separator. */
  predicate KeysAreCodes(tables: Tables) {
    forall code :: code in tables ==> '.' in code
  }

  /** The key for a country and a subdivision (which may be empty). */
  function RegionCode(country: string, subdivision: string): string {
    country + "." + subdivision
  }

  /** A region code holds the separator right after the country, and determines both parts' text around it. */
  lemma RegionCodeSeparator(country: string, subdivision: string)
    ensures var code := RegionCode(country, subdivision);
            |code| == |country| + 1 + |subdivision| && code[|country|] == '.' &&
            code[..|country|] == country && code[|country| + 1..] == subdivision
  {
  }

  /**
   * A country code without the separator is everything before the first `.` of the
   * key, so the key determines both codes. (Without that condition it does not:
   * "a.b" with "c" and "a" with "b.c" give the same key.)
   */
  lemma RegionCodeInjective(country: string, subdivision: string, country2: string, subdivision2: string)
    requires '.' !in country && '.' !in country2
    requires RegionCode(country, subdivision) == RegionCode(country2, subdivision2)
    ensures country == country2 && subdivision == subdivision2
  {
    RegionCodeSeparator(country, subdivision);
    RegionCodeSeparator(country2, subdivision2);
  }

  /** One region record of the document, as the loop body reads it. */
  function RecordOf(cs: Json): (r: Option<(string, seq<SpeedTable>)>)
    ensures r.Some? ==> '.' in r.value.0 && ValidPair(r.value.1)
  {
    var country := StringMember(cs, "iso3166-1");
    var subdivision := StringMember(cs, "iso3166-2");
    var urban := if Member(cs, "urban").Some? then TableOf(Member(cs, "urban").value) else None;
    var rural := if Member(cs, "rural").Some? then TableOf(Member(cs, "rural").value) else None;
    if country.Some? && subdivision.Some? && urban.Some? && rural.Some? then
      var code := RegionCode(country.value, subdivision.value);
      RegionCodeSeparator(country.value, subdivision.value);
      Some((code, [urban.value, rural.value]))
    else None
  }

  /**
   * A record is read exactly when both codes are strings and both tables can be
   * read; it is then stored under `country.subdivision`, urban first.
   */
  lemma RecordOfReads(cs: Json)
    ensures RecordOf(cs).Some? <==>
      StringMember(cs, "iso3166-1").Some? && StringMember(cs, "iso3166-2").Some? &&
      Member(cs, "urban").Some? && TableOf(Member(cs, "urban").value).Some? &&
      Member(cs, "rural").Some? && TableOf(Member(cs, "rural").value).Some?
    ensures RecordOf(cs).Some? ==>
      RecordOf(cs).value.0 ==
        RegionCode(StringMember(cs, "iso3166-1").value, StringMember(cs, "iso3166-2").value) &&
      Some(RecordOf(cs).value.1[Urban]) == TableOf(cs.members["urban"]) &&
      Some(RecordOf(cs).value.1[Rural]) == TableOf(cs.members["rural"])
  {
  }

  /** An entry of the map: a region code and its pair of tables. */
  type Entry = (string, seq<SpeedTable>)

  /** The records of a document, each read or not. */
  function Entries(records: seq<Json>): (entries: seq<Option<Entry>>)
    ensures |entries| == |records|
    ensures forall j :: 0 <= j < |records| ==> entries[j] == RecordOf(records[j])
  {
    seq(|records|, j requires 0 <= j < |records| => RecordOf(records[j]))
  }

  /**
   * The loop body of the constructor for one record: the code, then
   * `SpeedTable(cs["urban"])`, then `SpeedTable(cs["rural"])`.
   */
  method BuildRecord(cs: Json) returns (r: Option<Entry>)
    ensures r == RecordOf(cs)
  {
    var country := StringMember(cs, "iso3166-1");
    var subdivision := StringMember(cs, "iso3166-2");
    if country.None? || subdivision.None? {
      return None;
    }
    var code := country.value + ".";
    code := code + subdivision.value;
    var urbanObj := Member(cs, "urban");
    if urbanObj.None? {
      return None;
    }
    var urban := BuildTable(urbanObj.value);
    var ruralObj := Member(cs, "rural");
    if urban.None? || ruralObj.None? {
      return None;
    }
    var rural := BuildTable(ruralObj.value);
    if rural.None? {
      return None;
    }
    r := Some((code, [urban.value, rural.value]));
  }

  /** The codes of the entries that were read. */
  function Codes(entries: seq<Option<Entry>>): set<string> {
    set j | 0 <= j < |entries| && entries[j].Some? :: entries[j].value.0
  }

  predicate ValidEntry(entry: Entry) {
    '.' in entry.0 && ValidPair(entry.1)
  }

  /**
   * The loop of the constructor, from the map `m` built so far: `emplace` adds an
   * entry only if its code is new, and the first record that could not be read
   * aborts the whole load.
   */
  function LoadFrom(m: Tables, entries: seq<Option<Entry>>): (r: Option<Tables>)
    ensures r.Some? <==> forall j :: 0 <= j < |entries| ==> entries[j].Some?
    ensures r.Some? ==> r.value.Keys == m.Keys + Codes(entries)
    ensures r.Some? ==> forall code :: code in m ==> r.value[code] == m[code]
    decreases |entries|
  {
    if entries == [] then Some(m)
    else
      match entries[0]
      case None => None
      case Some(entry) =>
        var rest := entries[1..];
        var r := LoadFrom(if entry.0 in m then m else m[entry.0 := entry.1], rest);
        assert forall j :: 0 < j < |entries| ==> entries[j] == rest[j - 1];
        assert Codes(entries) == {entry.0} + Codes(rest) by {
          forall code | code in Codes(rest) ensures code in Codes(entries) {
            var j :| 0 <= j < |rest| && rest[j].Some? && rest[j].value.0 == code;
            assert entries[j + 1] == rest[j];
          }
        }
        r
  }

  /** One step of the load from position `i`: the entry there is either added or ends it. */
  lemma LoadFromStep(m: Tables, entries: seq<Option<Entry>>, i: nat)
    requires i < |entries|
    ensures LoadFrom(m, entries[i..]) ==
      match entries[i]
      case None => None
      case Some(entry) => LoadFrom(if entry.0 in m then m else m[entry.0 := entry.1], entries[i + 1..])
  {
    assert entries[i..][0] == entries[i] && entries[i..][1..] == entries[i + 1..];
  }

  /** Loading valid entries into a valid map gives a valid map. */
  lemma {:induction false} LoadFromValid(m: Tables, entries: seq<Option<Entry>>)
    requires ValidTables(m) && KeysAreCodes(m)
    requires forall j :: 0 <= j < |entries| && entries[j].Some? ==> ValidEntry(entries[j].value)
    ensures LoadFrom(m, entries).Some? ==>
      ValidTables(LoadFrom(m, entries).value) && KeysAreCodes(LoadFrom(m, entries).value)
    decreases |entries|
  {
    if entries != [] && entries[0].Some? {
      var entry := entries[0].value;
      var next := if entry.0 in m then m else m[entry.0 := entry.1];
      assert ValidEntry(entry);
      assert ValidTables(next) && KeysAreCodes(next);
      forall j | 0 <= j < |entries[1..]| && entries[1..][j].Some?
        ensures ValidEntry(entries[1..][j].value)
      {
        assert entries[1..][j] == entries[j + 1];
      }
      LoadFromValid(next, entries[1..]);
    }
  }

  /**
   * `tables` after the constructor: empty when no file was named, when it could not
   * be read or parsed, when it is not an array, or when any record fails.
   */
  function LoadedTables(config: Option<ConfigFile>): (tables: Tables)
    ensures ValidTables(tables) && KeysAreCodes(tables)
  {
    match config
    case None => map[]
    case Some(Unreadable) => map[]
    case Some(Parsed(doc)) =>
      if !doc.JArray? then map[]
      else
        var entries := Entries(doc.items);
        LoadFromValid(map[], entries);
        match LoadFrom(map[], entries)
        case Some(m) => m
        case None => map[]
  }

  /** When every record is read, the loaded map is the result of the fold. */
  lemma LoadedFromEntries(doc: Json)
    requires doc.JArray? && LoadFrom(map[], Entries(doc.items)).Some?
    ensures LoadedTables(Some(Parsed(doc))) == LoadFrom(map[], Entries(doc.items)).value
  {
  }

  /**
   * All or nothing: one record that cannot be read, wherever it is, leaves the map
   * empty; otherwise every record's code is a key.
   */
  lemma LoadAllOrNothing(doc: Json)
    requires doc.JArray?
    ensures (exists j :: 0 <= j < |doc.items| && RecordOf(doc.items[j]).None?) ==>
      LoadedTables(Some(Parsed(doc))) == map[]
    ensures (forall j :: 0 <= j < |doc.items| ==> RecordOf(doc.items[j]).Some?) ==>
      LoadedTables(Some(Parsed(doc))).Keys == Codes(Entries(doc.items))
  {
  }

  /**
   * The entry stored under a code is the one of the first record with that code;
   * later records with the same code are ignored.
   */
  lemma {:induction false} FirstRecordWins(m: Tables, entries: seq<Option<Entry>>, j: nat)
    requires LoadFrom(m, entries).Some?
    requires j < |entries| && entries[j].value.0 !in m
    requires forall i :: 0 <= i < j ==> entries[i].value.0 != entries[j].value.0
    ensures LoadFrom(m, entries).value[entries[j].value.0] == entries[j].value.1
    decreases j
  {
    var entry := entries[0].value;
    var next := if entry.0 in m then m else m[entry.0 := entry.1];
    assert LoadFrom(m, entries) == LoadFrom(next, entries[1..]);
    if j > 0 {
      assert entries[1..][j - 1] == entries[j];
      forall i | 0 <= i < j - 1
        ensures entries[1..][i].value.0 != entries[1..][j - 1].value.0
      {
        assert entries[1..][i] == entries[i + 1];
      }
      FirstRecordWins(next, entries[1..], j - 1);
    }
  }

  /**
   * A successful load stores each record's entry under its code when no earlier
   * record has that code.
   */
  lemma LoadKeepsFirstEntry(doc: Json, j: nat)
    requires doc.JArray? && j < |doc.items|
    requires forall i :: 0 <= i < |doc.items| ==> Entries(doc.items)[i].Some?
    requires forall i :: 0 <= i < j ==> Entries(doc.items)[i].value.0 != Entries(doc.items)[j].value.0
    ensures var entry := Entries(doc.items)[j].value;
            var tables := LoadedTables(Some(Parsed(doc)));
            entry.0 in tables && tables[entry.0] == entry.1
  {
    FirstRecordWins(map[], Entries(doc.items), j);
    LoadedFromEntries(doc);
  }

  /** A record that is read yields tables that its "urban" and "rural" objects describe. */
  lemma RecordDescribes(cs: Json)
    requires RecordOf(cs).Some?
    ensures var pair := RecordOf(cs).value.1;
            ValidPair(pair) &&
            Describes(cs.members["urban"], pair[Urban]) && Describes(cs.members["rural"], pair[Rural])
  {
    RecordOfReads(cs);
  }

  /**
   * A successful load keeps the configuration: each record's code is a key, and the
   * first record with that code gives its urban table (index 0) and its rural table
   * (index 1), each describing the record's JSON object position for position.
   */
  lemma LoadPreservesConfig(doc: Json, j: nat)
    requires doc.JArray? && j < |doc.items|
    requires forall i :: 0 <= i < |doc.items| ==> RecordOf(doc.items[i]).Some?
    requires forall i :: 0 <= i < j ==> RecordOf(doc.items[i]).value.0 != RecordOf(doc.items[j]).value.0
    ensures RecordOf(doc.items[j]).value.0 in LoadedTables(Some(Parsed(doc)))
    ensures var cs := doc.items[j];
            var pair := LoadedTables(Some(Parsed(doc)))[RecordOf(cs).value.0];
            ValidPair(pair) &&
            Describes(cs.members["urban"], pair[Urban]) && Describes(cs.members["rural"], pair[Rural])
  {
    LoadKeepsFirstEntry(doc, j);
    RecordDescribes(doc.items[j]);
  }

  /** A region of the configuration, as the document's author writes it. */
  datatype Region = Region(country: string, subdivision: string, urban: SpeedTable, rural: SpeedTable)

  predicate ValidRegion(region: Region) {
    WellShaped(region.urban) && Bounded(region.urban) && WellShaped(region.rural) && Bounded(region.rural)
  }

  /** The record written for a region. */
  function RegionJson(region: Region): Json
    requires ValidRegion(region)
  {
    JObject(map[
      "iso3166-1" := JString(region.country),
      "iso3166-2" := JString(region.subdivision),
      "urban" := TableJson(region.urban),
      "rural" := TableJson(region.rural)])
  }

  /** The document written for a list of regions. */
  function DocumentJson(regions: seq<Region>): (doc: Json)
    requires forall i :: 0 <= i < |regions| ==> ValidRegion(regions[i])
    ensures doc.JArray? && |doc.items| == |regions|
    ensures forall i :: 0 <= i < |regions| ==> doc.items[i] == RegionJson(regions[i])
  {
    JArray(seq(|regions|, i requires 0 <= i < |regions| => RegionJson(regions[i])))
  }

  /** Reading a written record gives back its code and its two tables. */
  lemma RecordRoundTrip(region: Region)
    requires ValidRegion(region)
    ensures RecordOf(RegionJson(region)) ==
      Some((RegionCode(region.country, region.subdivision), [region.urban, region.rural]))
  {
    var cs := RegionJson(region);
    assert Member(cs, "urban") == Some(TableJson(region.urban));
    assert Member(cs, "rural") == Some(TableJson(region.rural));
    TableRoundTrip(region.urban);
    TableRoundTrip(region.rural);
  }

  /** The entry a written region is stored as. */
  function RegionEntry(region: Region): Entry {
    (RegionCode(region.country, region.subdivision), [region.urban, region.rural])
  }

  /** Reading a written document gives back one entry per region, in order. */
  lemma DocumentEntries(regions: seq<Region>)
    requires forall i :: 0 <= i < |regions| ==> ValidRegion(regions[i])
    ensures forall i :: 0 <= i < |regions| ==>
      Entries(DocumentJson(regions).items)[i] == Some(RegionEntry(regions[i]))
  {
    var doc := DocumentJson(regions);
    forall i | 0 <= i < |regions|
      ensures Entries(doc.items)[i] == Some(RegionEntry(regions[i]))
    {
      RecordRoundTrip(regions[i]);
    }
  }

  /**
   * Loading a written document and looking up one of its regions gives back exactly
   * the configured tables, provided no earlier region has the same codes.
   */
  lemma DocumentRoundTrip(regions: seq<Region>, j: nat)
    requires forall i :: 0 <= i < |regions| ==> ValidRegion(regions[i])
    requires j < |regions|
    requires forall i :: 0 <= i < j ==> RegionEntry(regions[i]).0 != RegionEntry(regions[j]).0
    ensures var tables := LoadedTables(Some(Parsed(DocumentJson(regions))));
            RegionEntry(regions[j]).0 in tables && tables[RegionEntry(regions[j]).0] == RegionEntry(regions[j]).1
  {
    var doc := DocumentJson(regions);
    var entries := Entries(doc.items);
    DocumentEntries(regions);
    FirstRecordWins(map[], entries, j);
    LoadedFromEntries(doc);
  }

  /** `tables.find(code)`: the pair stored under `code`, if any. */
  function Find(tables: Tables, code: string): Option<seq<SpeedTable>> {
    if code in tables then Some(tables[code]) else None
  }

  /**
   * The fallback chain of `FromConfig`: the exact region, then the country alone,
   * then the empty key.
   */
  function Lookup(tables: Tables, country: string, state: string): Option<seq<SpeedTable>> {
    if RegionCode(country, state) in tables then Some(tables[RegionCode(country, state)])
    else if RegionCode(country, "") in tables then Some(tables[RegionCode(country, "")])
    else if "" in tables then Some(tables[""])
    else None
  }

  /**
   * On a loaded map the empty key never matches, because every key holds the
   * separator: a lookup finds the exact region if it is configured, else the
   * country-only entry, else nothing.
   */
  lemma LookupOnLoaded(config: Option<ConfigFile>, country: string, state: string)
    ensures var tables := LoadedTables(config);
            "" !in tables &&
            Lookup(tables, country, state) ==
              if RegionCode(country, state) in tables then Some(tables[RegionCode(country, state)])
              else if RegionCode(country, "") in tables then Some(tables[RegionCode(country, "")])
              else None
  {
  }
}
