# Speed assignment for directed edges (valhalla `SpeedAssigner`)

This project models `SpeedAssigner`, the class the graph builder of valhalla's
`mjolnir` uses to give each directed edge its default speed. It is defined in
`src/mjolnir/speed_assigner.h`. It has two tiers:

- **Configured speeds.** An optional JSON document lists regions. Each region has a
  country code, a subdivision code and two speed tables, urban and rural. The
  constructor loads the document into a map from `country.subdivision` to the pair of
  tables; any failure leaves the map empty. `FromConfig` finds the region of an edge
  (exact code, then country alone, then the empty key) and picks one table by density.
  It then sets the speed from one cell: the service cell for driveways, alleys,
  parking aisles and drive-throughs, else the exiting or turning link cell, else the
  roundabout cell, else the way cell of the edge's road class.
- **Heuristics.** When no configured speed applies, `UpdateSpeed` adjusts the current
  speed. Links (turn channels and ramps) are scaled by fixed factors. A speed tagged
  in the map data only pays a penalty on rough surfaces. Ferries get a speed by
  length. Ordinary roads go through four steps: the urban default in dense areas, the
  roundabout factor, constant speeds for service uses, and halving on rough surfaces.

Files, one module each:

- `wrappers.dfy`: `Option`.
- `json.dfy`: the already-parsed configuration document and RapidJSON's member,
  `GetUint` and `GetString` accessors, with their failure cases.
- `speed_table.dfy`: `SpeedTable`, its reader `parse` (`Parse`, an imperative loop
  over an array), its constructor (`BuildTable`), and an encoder `TableJson` that
  serves as the reader's inverse.
- `region_index.dfy`: the map of regions, the loading fold, the writer of whole
  documents, and the lookup chain.
- `edge.dfy`: the directed-edge attributes the assigner reads (`DirectedEdge`, a class
  whose `speed` field is updated in place) and the constants defined outside the
  header (`Constants`).
- `heuristics.dfy`: the heuristic tier as functions, with the properties of each
  branch.
- `speed_assigner.dfy`: the `SpeedAssigner` class, with its constructor and its
  loading loop `Load`, `FromConfig`, `UpdateSpeed`, and the heuristic part of
  `UpdateSpeed`, `DefaultSpeed`. Each method is proved against the functions
  `LoadedTables`, `ConfigSpeed`, `NewSpeed` and `HeuristicSpeed`.

### Notes on the code

- `found->second[density <= 8]` (line 152) reads index 1 when density is 8 or less.
  Index 1 is the rural table, the second one the constructor stores (lines 104-107).
  So a density of 8 or less selects the rural table, and only a density above 8 the
  urban one; `Assigner.ConfigExample` works one case through.
- `tables.emplace` (line 104) does not replace an existing key. When two records
  have the same code, the first one is kept and later ones are ignored.
- In `FromConfig` the switch on service uses (lines 156-171) comes before the
  link-class check (lines 174-177). So the configuration declines a link of class 5
  or above only when it has no service use.

## Model

| member | source | states |
|---|---|---|
| SpeedTables.UintsOf | src/mjolnir/speed_assigner.h:66-69 | the elements of an array can be read as uint32 exactly when every one of them can; the result lists them in order |
| SpeedTables.ArrayOf | src/mjolnir/speed_assigner.h:61-70 | `parse` succeeds exactly when the member is an array of the expected length whose every element is a uint32, and then yields that array position for position |
| SpeedTables.Parse | src/mjolnir/speed_assigner.h:61-70 | the loop that checks the length and then copies the elements into a fixed-size array returns exactly what `ArrayOf` specifies |
| SpeedTables.TableOf | src/mjolnir/speed_assigner.h:72-81 | a table that is read has the `std::array` lengths 8/5/5/8/4, holds uint32 values only, and the object describes it member by member |
| SpeedTables.BuildTable | src/mjolnir/speed_assigner.h:72-81 | the constructor (four `parse` calls, then the four service speeds) returns exactly `TableOf` |
| SpeedTables.TableJson | src/mjolnir/speed_assigner.h:13-38 | the object written for a table, in the documented layout, describes that table |
| SpeedTables.UintArrayInjective | src/mjolnir/speed_assigner.h:66-69 | a JSON array of numbers determines the sequence it was written from |
| SpeedTables.TableOfComplete | src/mjolnir/speed_assigner.h:72-81 | every object that describes a well-shaped table of uint32 speeds is read as exactly that table |
| SpeedTables.TableRoundTrip | src/mjolnir/speed_assigner.h:72-81 | writing a table and reading it back gives the same table |
| RegionIndex.RegionCodeSeparator | src/mjolnir/speed_assigner.h:101-103 | the key is the country, then `.` at position `|country|`, then the subdivision, so given the country's length both codes can be read back from it |
| RegionIndex.RegionCodeInjective | src/mjolnir/speed_assigner.h:101-103 | when neither country code holds a `.`, equal keys mean equal country and subdivision codes (without that condition the key is ambiguous) |
| RegionIndex.RegionCode | src/mjolnir/speed_assigner.h:101-103 | the key `country + "." + subdivision`; its layout and when it is unambiguous are `RegionCodeSeparator` and `RegionCodeInjective` |
| RegionIndex.RecordOf | src/mjolnir/speed_assigner.h:100-107 | a record that is read yields a key holding the separator and a pair of well-shaped tables |
| RegionIndex.RecordOfReads | src/mjolnir/speed_assigner.h:101-106 | a record is read exactly when both codes are strings and both tables can be read; its key is `country.subdivision` and it stores the urban table first and the rural second |
| RegionIndex.BuildRecord | src/mjolnir/speed_assigner.h:101-107 | the loop body (build the code, then read the urban table, then the rural one) returns exactly `RecordOf` |
| RegionIndex.LoadFrom | src/mjolnir/speed_assigner.h:100-117 | the fold succeeds exactly when every record is read; the keys afterwards are the old keys plus every record's code; existing keys keep their tables |
| RegionIndex.LoadFromStep | src/mjolnir/speed_assigner.h:104 | one step of the fold either stops on an unreadable record or adds the entry only if its code is new |
| RegionIndex.LoadFromValid | src/mjolnir/speed_assigner.h:85 | loading valid entries keeps every value a pair of well-shaped tables and every key a dotted code |
| RegionIndex.LoadedTables | src/mjolnir/speed_assigner.h:87-119 | the map after construction always holds well-shaped pairs under dotted keys, including when a load fails or no file is named |
| RegionIndex.LoadedFromEntries | src/mjolnir/speed_assigner.h:100-108 | when every record is read, the loaded map is the result of the fold |
| RegionIndex.LoadAllOrNothing | src/mjolnir/speed_assigner.h:109-117 | one unreadable record anywhere leaves the map empty; otherwise the keys are exactly the records' codes |
| RegionIndex.FirstRecordWins | src/mjolnir/speed_assigner.h:104 | the value under a code is the entry of the first record with that code; later duplicates are ignored |
| RegionIndex.LoadKeepsFirstEntry | src/mjolnir/speed_assigner.h:104-107 | after a successful load, a record with no earlier record of the same code is stored under its code |
| RegionIndex.RecordDescribes | src/mjolnir/speed_assigner.h:105-106 | the two tables of a record that is read are described by its "urban" and "rural" objects |
| RegionIndex.LoadPreservesConfig | src/mjolnir/speed_assigner.h:100-107 | after a successful load, the first record with a code has its urban table at index 0 and its rural table at index 1, each equal position by position to the record's JSON |
| RegionIndex.RecordRoundTrip | src/mjolnir/speed_assigner.h:100-107 | reading a written record gives back its `country.subdivision` code and its urban and rural tables |
| RegionIndex.DocumentEntries | src/mjolnir/speed_assigner.h:100-107 | reading a written document gives back one entry per region, in order |
| RegionIndex.DocumentRoundTrip | src/mjolnir/speed_assigner.h:87-119 | loading a written document and looking up a region with no earlier duplicate code gives back exactly its configured tables |
| RegionIndex.Lookup | src/mjolnir/speed_assigner.h:142-149 | the three `find` calls in order: exact code, then `country.`, then the empty key; on a loaded map `LookupOnLoaded` shows the last never matches |
| RegionIndex.LookupOnLoaded | src/mjolnir/speed_assigner.h:142-149 | on a loaded map the empty key never matches, so the lookup finds the exact region, else the country-only entry, else nothing |
| Heuristics.ScaleNearest | src/mjolnir/speed_assigner.h:7-10 | scaling by a factor gives the integer within half a unit of the exact product, rounding a tie up (`(uint32_t)(s * f + 0.5f)`) |
| Heuristics.ScaleSlows | src/mjolnir/speed_assigner.h:8-10 | a factor of at most 1 (ramp, dense ramp, roundabout) never raises a speed |
| Heuristics.ScaleSpeedsUp | src/mjolnir/speed_assigner.h:7 | a factor of at least 1 (turn channel) never lowers a speed |
| Heuristics.ScaleMonotone | src/mjolnir/speed_assigner.h:7-10 | scaling keeps the order of speeds |
| Heuristics.Scale | src/mjolnir/speed_assigner.h:230 | `(uint32_t)(s * f + 0.5f)` (also lines 237-240 and 297) on exact factors; `ScaleNearest` proves it is the product rounded half up, `ScaleSlows`, `ScaleSpeedsUp` and `ScaleMonotone` its direction and order |
| Heuristics.LinkSpeed | src/mjolnir/speed_assigner.h:226-247 | an inferred turn channel is never slowed, an untagged ramp is never sped up, and every other link keeps its speed |
| Heuristics.RampSpeed | src/mjolnir/speed_assigner.h:234-241 | the ramp factor by class and density; `DenseRampNoFaster` and `LinkExamples` state what it gives |
| Heuristics.DenseRampNoFaster | src/mjolnir/speed_assigner.h:235-238 | a ramp in a dense area is never faster than the same ramp in a sparse one |
| Heuristics.LinkExamples | src/mjolnir/speed_assigner.h:229-241 | a turn channel at 40 becomes 50; a ramp at 40 becomes 34, or 32 on a dense motorway ramp, and stays 34 on a dense ramp of a lower class |
| Heuristics.TaggedSpeed | src/mjolnir/speed_assigner.h:251-263 | a tagged speed drops by at most 10 and only on rough surfaces above 15, and a speed above 15 stays above 10 |
| Heuristics.TaggedFerryKeepsTaggedSpeed | src/mjolnir/speed_assigner.h:251-263 | because the tagged branch comes first, a tagged non-link edge (even a ferry) gets the tagged-speed result |
| Heuristics.FerrySpeed | src/mjolnir/speed_assigner.h:267-284 | a rail ferry runs at 65; a ferry marked as leaving the tile keeps its speed; every other ferry gets 10, 20 or 30 |
| Heuristics.FerrySpeedMonotone | src/mjolnir/speed_assigner.h:276-282 | a longer ferry is never slower |
| Heuristics.FerryExamples | src/mjolnir/speed_assigner.h:276-282 | the ferry tiers change at 2000 and 8000 metres: 1999 gives 10, 2000 and 7999 give 20, 8000 gives 30 |
| Heuristics.RailFerryFixed | src/mjolnir/speed_assigner.h:267-269 | an untagged non-link rail ferry runs at 65 whatever its length and the density |
| Heuristics.ServiceSpeed | src/mjolnir/speed_assigner.h:302-308 | the constant speed of parking aisles, driveways and drive-throughs and no other use; `RoadServiceUse` and `AlleyIsOrdinaryRoad` state its effect |
| Heuristics.RoadSpeed | src/mjolnir/speed_assigner.h:290-314 | the four road steps in source order; `RoadServiceUse`, `UrbanIgnoresCurrentSpeed`, `PlainRoadUnchanged`, `RoughHalvesLast` and `RoadNeverAboveBase` state what they give |
| Heuristics.HeuristicSpeed | src/mjolnir/speed_assigner.h:225-314 | the first matching branch decides: link, then tagged, then ferry, then road; `TaggedFerryKeepsTaggedSpeed` and `RailFerryFixed` state the precedence, and `DefaultSpeed` is proved to compute it |
| Heuristics.RoadServiceUse | src/mjolnir/speed_assigner.h:302-314 | a parking aisle, driveway or drive-through gets its constant speed, halved on a rough surface, whatever its density, roundabout flag and current speed |
| Heuristics.AlleyIsOrdinaryRoad | src/mjolnir/speed_assigner.h:302-308 | an alley has no constant heuristic speed: it is treated like an ordinary road |
| Heuristics.UrbanIgnoresCurrentSpeed | src/mjolnir/speed_assigner.h:290-293 | above density 8 the urban default replaces the current speed, which then does not matter |
| Heuristics.PlainRoadUnchanged | src/mjolnir/speed_assigner.h:290-314 | a smooth, sparse, non-roundabout road without a service use keeps its speed |
| Heuristics.RoughHalvesLast | src/mjolnir/speed_assigner.h:311-314 | the surface penalty is the last step: a rough road gets half the speed of the same road when smooth |
| Heuristics.RoadNeverAboveBase | src/mjolnir/speed_assigner.h:295-314 | after the urban step, a road without a service use is only ever slowed |
| Assigner.ConfigCell | src/mjolnir/speed_assigner.h:156-193 | the cell `FromConfig` reads always exists in a well-shaped table |
| Assigner.ServiceCellOf | src/mjolnir/speed_assigner.h:156-171 | driveway, alley, parking aisle and drive-through read service cells 0 to 3; `ConfigCellChosen` states the resulting speed |
| Assigner.TableFor | src/mjolnir/speed_assigner.h:152 | `found->second[density <= 8]`; `ConfigTableByDensity` states which table that is |
| Assigner.ConfigSpeed | src/mjolnir/speed_assigner.h:137-194 | the speed `FromConfig` sets, or None where it returns false; `ConfigDeclines` and `ConfigCellChosen` characterise it, and `FromConfig` is proved to compute it |
| Assigner.NewSpeed | src/mjolnir/speed_assigner.h:221-223 | the configured speed when the map is non-empty and one applies, else the heuristic speed; `ConfigWins`, `FerriesUseHeuristics` and `DisabledConfigUsesHeuristics` state its cases, and `UpdateSpeed` is proved to compute it |
| Assigner.ConfigTableByDensity | src/mjolnir/speed_assigner.h:152 | density 8 or less reads the rural table (index 1); above 8, the urban one (index 0) |
| Assigner.ConfigDeclines | src/mjolnir/speed_assigner.h:137-177 | the configuration declines exactly for ferries, for edges closed to motor vehicles, when no region matches, and for links of class 5 or above that have no service use |
| Assigner.ConfigCellChosen | src/mjolnir/speed_assigner.h:151-194 | a configured speed is the service cell for the four special uses, else the link cell chosen by signage, else the roundabout cell, else the way cell, all in the table chosen by density |
| Assigner.ConfigExample | src/mjolnir/speed_assigner.h:143-152 | with `us.pa` configured, an ordinary class-2 edge at density 5 gets the rural `way[2]` |
| Assigner.ConfigWins | src/mjolnir/speed_assigner.h:221-223 | when a configured speed applies, it is the final speed and no heuristic runs after it |
| Assigner.FerriesUseHeuristics | src/mjolnir/speed_assigner.h:137-140 | ferries always get their heuristic speed, whatever is configured |
| Assigner.DisabledConfigUsesHeuristics | src/mjolnir/speed_assigner.h:88-91 | with no configuration, or after a failed load, every edge gets exactly its heuristic speed |
| Assigner.SpeedAssigner.Load | src/mjolnir/speed_assigner.h:88-117 | the loading loop (one `BuildRecord` per element, insert only when the code is new, stop and clear on the first failure) returns exactly `LoadedTables(config)` |
| Assigner.SpeedAssigner.constructor | src/mjolnir/speed_assigner.h:85-119 | the map is set once, to `LoadedTables(config)`, so it holds well-shaped pairs under dotted keys for the object's whole life |
| Assigner.SpeedAssigner.FromConfig | src/mjolnir/speed_assigner.h:133-195 | returns true exactly when `ConfigSpeed` gives a speed and then sets that speed; otherwise leaves the speed as it was |
| Assigner.SpeedAssigner.UpdateSpeed | src/mjolnir/speed_assigner.h:214-223 | the edge's new speed is `NewSpeed`: the configured speed if one applies, else the heuristic one; no other attribute changes |
| Assigner.SpeedAssigner.DefaultSpeed | src/mjolnir/speed_assigner.h:225-314 | the heuristic statements set exactly `HeuristicSpeed` (link, tagged, ferry or road branch); no other attribute changes |

## Left out

- Reading the file and parsing JSON text are not modelled. The constructor receives
  an already-parsed document, or the fact that the file was unreadable or malformed.
  Every RapidJSON access that fails (a missing member, the wrong type, a number that
  is not a uint32) counts as a failure that clears the map. The real code hits a
  RapidJSON assertion or throws at these points; the outcome depends on how RapidJSON
  is built.
- Logging is left out (lines 89, 111, 115, 118). So is the fact that line 118 logs
  "Enabled" even after a failed load has cleared the map.
- `GetInstance` (lines 198-201) is left out. It returns a function-local static
  instance, and the model does not represent static storage. A client constructs
  `SpeedAssigner` directly instead.
- `DirectedEdge` and its bit-packed fields, the enumeration ordinals, and the
  constants defined elsewhere (`kVehicularAccess`, `kPavedRough`, the three service
  speeds, the motorway, trunk and primary road classes) are not part of this model.
  They enter as the `Constants` parameter.
- Scale: the source multiplies by `float` factors and truncates `s * f + 0.5f`. The
  model uses the exact rationals 5/4, 4/5, 17/20 and 1/2 and rounds half up. For
  large speeds the source's result can differ from the model's, because the factors
  and the products are rounded to single precision. The difference is at most one
  from several hundred thousand up, and can be more above 2^23.
- UpdateSpeed: `set_speed` stores into a bit field of `DirectedEdge`, which may clamp
  or truncate. The model's speed is an unbounded natural number, so it also leaves out
  uint32 wrap-around in the arithmetic. `DefaultSpeed` is the same for the same
  reason.
- DefaultSpeed: it holds the heuristic statements that follow the configuration check
  (lines 225-314). They are a separate method so that each proof stays small. It
  reads the speed, use, class, tagged flag and surface into locals at its start, and
  reads the other attributes where the source does. The road branch writes the speed
  once, after the four steps; the source writes it after each step. The two agree
  only because `set_speed` is modelled as storing the value unchanged. With a
  clamping `set_speed`, the source's roundabout step (line 296) would read the
  clamped result of the urban step, and the model does not capture that.
- SpeedAssigner.Load: the constructor's loop is a static method that builds a local
  map, and the constructor stores its result in the `const` field `tables`. The
  source inserts into the member directly. Nothing can observe the object before
  construction ends, and `tables` never changes afterwards in either.
- StringMember: `GetString` returns a `const char*`, and lines 101 and 103 build a
  `std::string` from it, so a code stops at its first NUL character. The model keeps
  the whole JSON string.
- Duplicate member names in a JSON object are not modelled. `JObject` is a map, so it
  holds one member per name; RapidJSON keeps them all and `obj[name]` finds the first.
- The `urban_rc_speed` pointer becomes a sequence of eight speeds, one per road class.
