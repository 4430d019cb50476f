/**
 * `SpeedAssigner` (src/mjolnir/speed_assigner.h): loads the per-region speed tables
 * once, then sets the speed of each directed edge, from the configuration when a
 * table cell applies and from the default heuristics otherwise.
 */
module Assigner {

  import opened Wrappers
  import opened Json
  import opened SpeedTables
  import opened RegionIndex
  import opened Edges
  import opened Heuristics

  /** The service cell of a special use: driveway, alley, parking aisle, drive-through. */
  function ServiceCellOf(u: Use): Option<nat> {
    match u
    case Driveway => Some(0)
    case Alley => Some(1)
    case ParkingAisle => Some(2)
    case DriveThru => Some(3)
    case _ => None
  }

  /**
   * The cell of the chosen table `FromConfig` reads for an edge, or None for a link
   * whose class has no link entry.
   */
  function ConfigCell(e: EdgeState): (r: Option<Cell>)
    ensures r.Some? ==> InTable(r.value)
  {
    if ServiceCellOf(e.use).Some? then Some(ServiceCell(ServiceCellOf(e.use).value))
    else if e.link then
      if e.rc >= LinkCount then None
      else if e.sign then Some(LinkExitingCell(e.rc))
      else Some(LinkTurningCell(e.rc))
    else if e.roundabout then Some(RoundaboutCell(e.rc))
    else Some(WayCell(e.rc))
  }

  /** `found->second[density <= 8]`: index 1, the rural table, unless density is above 8. */
  function TableFor(pair: seq<SpeedTable>, density: nat): SpeedTable
    requires ValidPair(pair)
  {
    pair[if density <= UrbanDensity then 1 else 0]
  }

  /** The speed `FromConfig` sets, or None where it returns false. */
  function ConfigSpeed(tables: Tables, e: EdgeState, density: nat, country: string, state: string,
                       c: Constants): Option<nat>
    requires ValidTables(tables)
  {
    if e.use == Ferry || e.use == RailFerry || !HasVehicularAccess(e, c) then None
    else
      match Lookup(tables, country, state)
      case None => None
      case Some(pair) =>
        match ConfigCell(e)
        case None => None
        case Some(cell) => Some(CellValue(TableFor(pair, density), cell))
  }

  /** The speed `UpdateSpeed` leaves on an edge. */
  function NewSpeed(tables: Tables, e: EdgeState, density: nat, urbanRcSpeed: seq<nat>,
                    inferTurnChannels: bool, country: string, state: string, c: Constants): nat
    requires ValidTables(tables) && |urbanRcSpeed| == 8
  {
    if tables != map[] && ConfigSpeed(tables, e, density, country, state, c).Some? then
      ConfigSpeed(tables, e, density, country, state, c).value
    else HeuristicSpeed(e, density, urbanRcSpeed, inferTurnChannels, c)
  }

  /**
   * The configuration declines exactly for ferries, for edges no motor vehicle may
   * use, when no region matches, and for links of class 5 or lower capacity that
   * have no service use.
   */
  lemma ConfigDeclines(tables: Tables, e: EdgeState, density: nat, country: string, state: string, c: Constants)
    requires ValidTables(tables)
    ensures ConfigSpeed(tables, e, density, country, state, c).None? <==>
      e.use == Ferry || e.use == RailFerry || !HasVehicularAccess(e, c) ||
      Lookup(tables, country, state).None? ||
      (e.link && e.rc >= LinkCount && e.use !in {Driveway, Alley, ParkingAisle, DriveThru})
  {
  }

  /**
   * When the configuration applies, the speed is one cell of the region's table for
   * the edge's density: the service cell of a special use before anything else, then
   * the exiting or turning link cell by signage, then the roundabout cell, then the
   * way cell, each at the edge's road class.
   */
  lemma ConfigCellChosen(tables: Tables, e: EdgeState, density: nat, country: string, state: string, c: Constants)
    requires ValidTables(tables)
    requires ConfigSpeed(tables, e, density, country, state, c).Some?
    ensures var t := TableFor(Lookup(tables, country, state).value, density);
            var v := ConfigSpeed(tables, e, density, country, state, c).value;
            WellShaped(t) &&
            (e.use == Driveway ==> v == t.service[0]) &&
            (e.use == Alley ==> v == t.service[1]) &&
            (e.use == ParkingAisle ==> v == t.service[2]) &&
            (e.use == DriveThru ==> v == t.service[3]) &&
            (e.use !in {Driveway, Alley, ParkingAisle, DriveThru} ==>
              if e.link then e.rc < LinkCount && v == (if e.sign then t.linkExiting[e.rc] else t.linkTurning[e.rc])
              else if e.roundabout then v == t.roundabout[e.rc]
              else v == t.way[e.rc])
  {
  }

  /** Density 8 or less reads the rural table; above 8, the urban one. */
  lemma ConfigTableByDensity(pair: seq<SpeedTable>, density: nat)
    requires ValidPair(pair)
    ensures TableFor(pair, density) == if density <= UrbanDensity then pair[Rural] else pair[Urban]
  {
  }

  /** A configured speed wins outright: no heuristic runs after it. */
  lemma ConfigWins(tables: Tables, e: EdgeState, density: nat, urbanRcSpeed: seq<nat>, infer: bool,
                   country: string, state: string, c: Constants)
    requires ValidTables(tables) && |urbanRcSpeed| == 8
    requires ConfigSpeed(tables, e, density, country, state, c).Some?
    ensures NewSpeed(tables, e, density, urbanRcSpeed, infer, country, state, c) ==
            ConfigSpeed(tables, e, density, country, state, c).value
  {
  }

  /** Ferries are never set from the configuration, so they always take the heuristics. */
  lemma FerriesUseHeuristics(tables: Tables, e: EdgeState, density: nat, urbanRcSpeed: seq<nat>, infer: bool,
                             country: string, state: string, c: Constants)
    requires ValidTables(tables) && |urbanRcSpeed| == 8 && e.use in {Ferry, RailFerry}
    ensures NewSpeed(tables, e, density, urbanRcSpeed, infer, country, state, c) ==
            HeuristicSpeed(e, density, urbanRcSpeed, infer, c)
  {
  }

  /**
   * Without a usable configuration (none named, or a load that failed) every edge
   * gets exactly its heuristic speed.
   */
  lemma DisabledConfigUsesHeuristics(config: Option<ConfigFile>, e: EdgeState, density: nat,
                                     urbanRcSpeed: seq<nat>, infer: bool, country: string, state: string,
                                     c: Constants)
    requires |urbanRcSpeed| == 8 && LoadedTables(config) == map[]
    ensures NewSpeed(LoadedTables(config), e, density, urbanRcSpeed, infer, country, state, c) ==
            HeuristicSpeed(e, density, urbanRcSpeed, infer, c)
  {
  }

  /**
   * A configured region "us.pa" whose rural `way[2]` is 55 gives an ordinary
   * class-2 edge at density 5 the speed 55: density 5 reads the rural table.
   */
  lemma ConfigExample(tables: Tables, e: EdgeState, urbanRcSpeed: seq<nat>, infer: bool, c: Constants)
    requires ValidTables(tables) && |urbanRcSpeed| == 8
    requires "us.pa" in tables && tables["us.pa"][Rural].way[2] == 55
    requires e.use == Road && e.rc == 2 && !e.link && !e.roundabout && HasVehicularAccess(e, c)
    ensures NewSpeed(tables, e, 5, urbanRcSpeed, infer, "us", "pa", c) == 55
  {
    assert RegionCode("us", "pa") == "us.pa";
  }

  /** The speed assigner: the map of speed tables loaded once at construction. */
  class SpeedAssigner {
    const tables: Tables

    ghost predicate Valid() {
      ValidTables(tables) && KeysAreCodes(tables)
    }

    /** Loads the configuration once; the map does not change afterwards. */
    constructor (config: Option<ConfigFile>)
      ensures Valid() && tables == LoadedTables(config)
    {
      var loaded := Load(config);
      tables := loaded;
    }

    /**
     * The body of the constructor: with no file named the map stays empty; otherwise
     * each record is added in turn unless its code is already present, and any
     * failure clears the whole map.
     */
    static method Load(config: Option<ConfigFile>) returns (loaded: Tables)
      ensures loaded == LoadedTables(config)
    {
      loaded := map[];
      match config
      case None =>
      case Some(Unreadable) =>
      case Some(Parsed(doc)) =>
        if !doc.JArray? {
          return;
        }
        ghost var entries := Entries(doc.items);
        var i := 0;
        while i < |doc.items|
          invariant 0 <= i <= |doc.items|
          invariant LoadFrom(loaded, entries[i..]) == LoadFrom(map[], entries)
        {
          var entry := BuildRecord(doc.items[i]);
          assert entry == entries[i];
          LoadFromStep(loaded, entries, i);
          if entry.None? {
            assert LoadFrom(map[], entries).None?;
            assert LoadedTables(config) == map[];
            return map[];
          }
          var code := entry.value.0;
          if code !in loaded {
            loaded := loaded[code := entry.value.1];
          }
          i := i + 1;
        }
        assert entries[i..] == [];
        assert LoadFrom(map[], entries) == Some(loaded);
        assert LoadedTables(config) == loaded;
    }

    /**
     * Sets the edge's speed from the configuration and returns true, or returns
     * false and leaves the speed as it was.
     */
    method FromConfig(edge: DirectedEdge, density: nat, country: string, state: string, c: Constants)
      returns (applied: bool)
      requires Valid()
      modifies edge`speed
      ensures var r := ConfigSpeed(tables, old(edge.State()), density, country, state, c);
              applied == r.Some? && edge.speed == if applied then r.value else old(edge.speed)
    {
      ghost var e := edge.State();
      var use, rc := edge.use, edge.rc;
      if use == Ferry || use == RailFerry || !HasVehicularAccess(edge.State(), c) {
        return false;
      }
      assert HasVehicularAccess(e, c);

      var found := Find(tables, RegionCode(country, state));
      if found.None? {
        assert RegionCode(country, "") == country + ".";
        found := Find(tables, country + ".");
      }
      if found.None? {
        found := Find(tables, "");
      }
      assert found == Lookup(tables, country, state);
      if found.None? {
        return false;
      }
      assert ValidPair(found.value);

      var speedTable := found.value[if density <= UrbanDensity then 1 else 0];
      assert speedTable == TableFor(found.value, density) && WellShaped(speedTable);
      ghost var cell := ConfigCell(e);
      assert ConfigSpeed(tables, e, density, country, state, c) ==
        if cell.Some? then Some(CellValue(speedTable, cell.value)) else None;

      match use {
        case Driveway =>
          edge.speed := speedTable.service[0];
          return true;
        case Alley =>
          edge.speed := speedTable.service[1];
          return true;
        case ParkingAisle =>
          edge.speed := speedTable.service[2];
          return true;
        case DriveThru =>
          edge.speed := speedTable.service[3];
          return true;
        case _ =>
      }
      assert ServiceCellOf(e.use).None?;

      if edge.link {
        if rc >= |speedTable.linkExiting| {
          assert cell.None?;
          return false;
        }
        if edge.sign {
          assert cell == Some(LinkExitingCell(rc));
          edge.speed := speedTable.linkExiting[rc];
        } else {
          assert cell == Some(LinkTurningCell(rc));
          edge.speed := speedTable.linkTurning[rc];
        }
        return true;
      }

      if edge.roundabout {
        assert cell == Some(RoundaboutCell(rc));
        edge.speed := speedTable.roundabout[rc];
        return true;
      }

      assert cell == Some(WayCell(rc));
      edge.speed := speedTable.way[rc];
      return true;
    }

    /**
     * Sets the edge's speed: from the configuration if it applies, otherwise by the
     * first heuristic branch that matches the edge.
     */
    method UpdateSpeed(edge: DirectedEdge, density: nat, urbanRcSpeed: seq<nat>, inferTurnChannels: bool,
                       countryCode: string, stateCode: string, c: Constants)
      requires Valid() && |urbanRcSpeed| == 8
      modifies edge`speed
      ensures edge.speed ==
        NewSpeed(tables, old(edge.State()), density, urbanRcSpeed, inferTurnChannels, countryCode, stateCode, c)
      ensures edge.State() == old(edge.State()).(speed := edge.speed)
    {
      if tables != map[] {
        var applied := FromConfig(edge, density, countryCode, stateCode, c);
        if applied {
          return;
        }
      }
      DefaultSpeed(edge, density, urbanRcSpeed, inferTurnChannels, c);
    }

    /**
     * The heuristic tier of `UpdateSpeed`: links, then tagged speeds, then ferries,
     * then the four steps for ordinary roads.
     */
    method DefaultSpeed(edge: DirectedEdge, density: nat, urbanRcSpeed: seq<nat>, inferTurnChannels: bool,
                        c: Constants)
      requires |urbanRcSpeed| == 8
      modifies edge`speed
      ensures edge.speed == HeuristicSpeed(old(edge.State()), density, urbanRcSpeed, inferTurnChannels, c)
      ensures edge.State() == old(edge.State()).(speed := edge.speed)
    {
      ghost var e := edge.State();
      var speed, use, rc, tagged, surface := edge.speed, edge.use, edge.rc, edge.tagged, edge.surface;
      if edge.link {
        if use == TurnChannel && inferTurnChannels {
          speed := Scale(speed, TurnChannelFactor);
        } else if use == Ramp && !tagged {
          if rc == c.motorway || rc == c.trunk || rc == c.primary {
            speed := if density > UrbanDensity then Scale(speed, RampDensityFactor) else Scale(speed, RampFactor);
          } else {
            speed := Scale(speed, RampFactor);
          }
        }
        assert speed == LinkSpeed(e, density, inferTurnChannels, c);
        edge.speed := speed;
        return;
      }

      if tagged {
        if surface >= c.pavedRough {
          if speed >= TaggedFastThreshold {
            edge.speed := speed - 10;
          } else if speed > TaggedSlowThreshold {
            edge.speed := speed - 5;
          }
        }
        assert edge.speed == TaggedSpeed(e, c);
        return;
      }

      if use == RailFerry {
        edge.speed := RailFerrySpeed;
        return;
      } else if use == Ferry {
        if edge.leavesTile {
          return;
        } else if edge.length < ShortFerryLength {
          edge.speed := ShortFerrySpeed;
        } else if edge.length < MediumFerryLength {
          edge.speed := MediumFerrySpeed;
        } else {
          edge.speed := LongFerrySpeed;
        }
        return;
      }
      assert HeuristicSpeed(e, density, urbanRcSpeed, inferTurnChannels, c) == RoadSpeed(e, density, urbanRcSpeed, c);

      // The four road steps, each applied to the speed the previous one left.
      if density > UrbanDensity {
        speed := urbanRcSpeed[rc];
      }
      if edge.roundabout {
        speed := Scale(speed, RoundaboutFactor);
      }
      if use == ParkingAisle {
        speed := c.parkingAisleSpeed;
      } else if use == Driveway {
        speed := c.drivewaySpeed;
      } else if use == DriveThru {
        speed := c.driveThruSpeed;
      }
      if surface >= c.pavedRough {
        speed := speed / 2;
      }
      edge.speed := speed;
    }
  }
}
