/**
 * The default speed heuristics of `SpeedAssigner::UpdateSpeed`
 * (src/mjolnir/speed_assigner.h), as functions of the edge's attributes: what the
 * speed becomes when no configured speed applies.
 *
 * The source scales speeds by `float` factors and truncates `speed * f + 0.5f`; here
 * each factor is the exact rational it stands for and the result is that rational
 * multiple of the speed rounded half up. This abstracts the float computation; it is
 * not proved equal to it.
 */
module Heuristics {

  import opened Wrappers
  import opened Edges

  /** The rational `num / den`. */
  datatype Factor = Factor(num: nat, den: nat)

  const TurnChannelFactor: Factor := Factor(5, 4)    // kTurnChannelFactor = 1.25
  const RampDensityFactor: Factor := Factor(4, 5)    // kRampDensityFactor = 0.8
  const RampFactor: Factor := Factor(17, 20)         // kRampFactor = 0.85
  const RoundaboutFactor: Factor := Factor(1, 2)     // kRoundaboutFactor = 0.5

  /**
   * Density above this is urban, both in the heuristics (speed_assigner.h line 290)
   * and in the configuration's choice of table (line 152).
   */
  const UrbanDensity: nat := 8

  /** Tagged speeds on rough surfaces: the thresholds and the cuts. */
  const TaggedFastThreshold: nat := 50
  const TaggedSlowThreshold: nat := 15

  /** Ferry speeds by length, and the rail ferry's fixed speed. */
  const RailFerrySpeed: nat := 65     // 40 mph
  const ShortFerryLength: nat := 2000
  const MediumFerryLength: nat := 8000
  const ShortFerrySpeed: nat := 10    // 5 knots
  const MediumFerrySpeed: nat := 20   // 10 knots
  const LongFerrySpeed: nat := 30     // 15 knots

  /**
   * `static_cast<uint32_t>(s * f + 0.5f)`: the integer nearest to `s * f`, halves
   * rounded up.
   */
  function Scale(s: nat, f: Factor): nat
    requires f.den > 0
  {
    (2 * f.num * s + f.den) / (2 * f.den)
  }

  /** `Scale(s, f)` is within half a unit of `s * f`, and a tie is rounded up. */
  lemma ScaleNearest(s: nat, f: Factor)
    requires f.den > 0
    ensures -(f.den as int) < 2 * (f.den * Scale(s, f) - f.num * s) <= f.den
  {
    var n := 2 * f.num * s + f.den;
    var d := 2 * f.den;
    assert d * (n / d) <= n < d * (n / d) + d;
  }

  lemma MulLe(a: nat, b: nat, c: nat)
    requires a <= b
    ensures a * c <= b * c
  {
  }

  /** A factor of at most one never raises a speed. */
  lemma ScaleSlows(s: nat, f: Factor)
    requires 0 < f.den && f.num <= f.den
    ensures Scale(s, f) <= s
  {
    var r := Scale(s, f);
    ScaleNearest(s, f);
    MulLe(f.num, f.den, s);
    if r > s {
      MulLe(s + 1, r, f.den);
      assert false;
    }
  }

  /** A factor of at least one never lowers a speed. */
  lemma ScaleSpeedsUp(s: nat, f: Factor)
    requires 0 < f.den <= f.num
    ensures Scale(s, f) >= s
  {
    var r := Scale(s, f);
    ScaleNearest(s, f);
    MulLe(f.den, f.num, s);
    if r < s {
      MulLe(r + 1, s, f.den);
      assert false;
    }
  }

  lemma DivMonotone(a: nat, b: nat, d: nat)
    requires a <= b && 0 < d
    ensures a / d <= b / d
  {
    if a / d > b / d {
      MulLe(b / d + 1, a / d, d);
      assert false;
    }
  }

  /** Scaling keeps the order of speeds. */
  lemma ScaleMonotone(s: nat, t: nat, f: Factor)
    requires 0 < f.den && s <= t
    ensures Scale(s, f) <= Scale(t, f)
  {
    MulLe(s, t, 2 * f.num);
    DivMonotone(2 * f.num * s + f.den, 2 * f.num * t + f.den, 2 * f.den);
  }

  /**
   * The ramp branch: ramps of motorway, trunk and primary class are scaled by 0.8 in
   * dense areas, every other untagged ramp by 0.85.
   */
  function RampSpeed(e: EdgeState, density: nat, c: Constants): nat {
    if e.rc == c.motorway || e.rc == c.trunk || e.rc == c.primary then
      if density > UrbanDensity then Scale(e.speed, RampDensityFactor) else Scale(e.speed, RampFactor)
    else Scale(e.speed, RampFactor)
  }

  /**
   * The link branch: turn channels are sped up when inference is on, untagged ramps
   * slowed, every other link keeps its speed.
   */
  function LinkSpeed(e: EdgeState, density: nat, inferTurnChannels: bool, c: Constants): (r: nat)
    ensures e.use == TurnChannel && inferTurnChannels ==> r >= e.speed
    ensures e.use == Ramp && !e.tagged ==> r <= e.speed
    ensures !(e.use == TurnChannel && inferTurnChannels) && !(e.use == Ramp && !e.tagged) ==> r == e.speed
  {
    if e.use == TurnChannel && inferTurnChannels then
      ScaleSpeedsUp(e.speed, TurnChannelFactor);
      Scale(e.speed, TurnChannelFactor)
    else if e.use == Ramp && !e.tagged then
      ScaleSlows(e.speed, RampDensityFactor);
      ScaleSlows(e.speed, RampFactor);
      RampSpeed(e, density, c)
    else e.speed
  }

  /** A ramp in a dense area is never faster than the same ramp elsewhere. */
  lemma DenseRampNoFaster(e: EdgeState, density: nat, c: Constants)
    requires e.use == Ramp && !e.tagged && density > UrbanDensity
    ensures LinkSpeed(e, density, false, c) <= LinkSpeed(e, 0, false, c)
  {
  }

  /**
   * The tagged branch: a speed from the map data only pays the rough-surface
   * penalty, and never drops by more than 10 nor to 10 or below when it was above 15.
   */
  function TaggedSpeed(e: EdgeState, c: Constants): (r: nat)
    ensures r <= e.speed <= r + 10
    ensures !IsRough(e, c) || e.speed <= TaggedSlowThreshold ==> r == e.speed
    ensures e.speed > TaggedSlowThreshold ==> r > 10
  {
    if IsRough(e, c) then
      if e.speed >= TaggedFastThreshold then e.speed - 10
      else if e.speed > TaggedSlowThreshold then e.speed - 5
      else e.speed
    else e.speed
  }

  /**
   * The ferry branch: a rail ferry runs at 65; a ferry marked as leaving the tile
   * keeps its speed; other ferries are faster the longer they are.
   */
  function FerrySpeed(e: EdgeState): (r: nat)
    requires e.use == Ferry || e.use == RailFerry
    ensures e.use == RailFerry ==> r == RailFerrySpeed
    ensures e.use == Ferry && e.leavesTile ==> r == e.speed
    ensures e.use == Ferry && !e.leavesTile ==> r in {ShortFerrySpeed, MediumFerrySpeed, LongFerrySpeed}
  {
    if e.use == RailFerry then RailFerrySpeed
    else if e.leavesTile then e.speed
    else if e.length < ShortFerryLength then ShortFerrySpeed
    else if e.length < MediumFerryLength then MediumFerrySpeed
    else LongFerrySpeed
  }

  /** A longer ferry is never slower. */
  lemma FerrySpeedMonotone(e: EdgeState, longer: nat)
    requires e.use == Ferry && !e.leavesTile && e.length <= longer
    ensures FerrySpeed(e) <= FerrySpeed(e.(length := longer))
  {
  }

  /** The constant speed of a parking aisle, driveway or drive-through, if the use has one. */
  function ServiceSpeed(u: Use, c: Constants): (r: Option<nat>) {
    match u
    case ParkingAisle => Some(c.parkingAisleSpeed)
    case Driveway => Some(c.drivewaySpeed)
    case DriveThru => Some(c.driveThruSpeed)
    case _ => None
  }

  /**
   * The ordinary-road branch, four steps in order, each applied to the speed the
   * previous one left: urban default speed, roundabout factor, service-use speed,
   * rough-surface halving.
   */
  function RoadSpeed(e: EdgeState, density: nat, urbanRcSpeed: seq<nat>, c: Constants): nat
    requires |urbanRcSpeed| == 8
  {
    var urban := if density > UrbanDensity then urbanRcSpeed[e.rc] else e.speed;
    var round := if e.roundabout then Scale(urban, RoundaboutFactor) else urban;
    var service := if ServiceSpeed(e.use, c).Some? then ServiceSpeed(e.use, c).value else round;
    if IsRough(e, c) then service / 2 else service
  }

  /** The speed an edge gets from the heuristics: the first branch that applies decides. */
  function HeuristicSpeed(e: EdgeState, density: nat, urbanRcSpeed: seq<nat>, inferTurnChannels: bool,
                          c: Constants): nat
    requires |urbanRcSpeed| == 8
  {
    if e.link then LinkSpeed(e, density, inferTurnChannels, c)
    else if e.tagged then TaggedSpeed(e, c)
    else if e.use == RailFerry || e.use == Ferry then FerrySpeed(e)
    else RoadSpeed(e, density, urbanRcSpeed, c)
  }

  /**
   * A parking aisle, driveway or drive-through gets its constant speed (halved on a
   * rough surface) whatever the density, the roundabout flag and the current speed.
   */
  lemma RoadServiceUse(e: EdgeState, density: nat, urbanRcSpeed: seq<nat>, c: Constants)
    requires |urbanRcSpeed| == 8 && e.use in {ParkingAisle, Driveway, DriveThru}
    ensures var k := ServiceSpeed(e.use, c).value;
            RoadSpeed(e, density, urbanRcSpeed, c) == if IsRough(e, c) then k / 2 else k
  {
  }

  /** An alley is not a service use here: it is treated as an ordinary road. */
  lemma AlleyIsOrdinaryRoad(e: EdgeState, density: nat, urbanRcSpeed: seq<nat>, c: Constants)
    requires |urbanRcSpeed| == 8 && e.use == Alley
    ensures RoadSpeed(e, density, urbanRcSpeed, c) == RoadSpeed(e.(use := Road), density, urbanRcSpeed, c)
  {
  }

  /** In a dense area the urban default replaces the current speed, which then does not matter. */
  lemma UrbanIgnoresCurrentSpeed(e: EdgeState, other: nat, density: nat, urbanRcSpeed: seq<nat>, c: Constants)
    requires |urbanRcSpeed| == 8 && density > UrbanDensity
    ensures RoadSpeed(e, density, urbanRcSpeed, c) == RoadSpeed(e.(speed := other), density, urbanRcSpeed, c)
  {
  }

  /** A smooth, rural, non-roundabout road without a service use keeps its speed. */
  lemma PlainRoadUnchanged(e: EdgeState, density: nat, urbanRcSpeed: seq<nat>, c: Constants)
    requires |urbanRcSpeed| == 8 && density <= UrbanDensity
    requires !e.roundabout && ServiceSpeed(e.use, c).None? && !IsRough(e, c)
    ensures RoadSpeed(e, density, urbanRcSpeed, c) == e.speed
  {
  }

  /** The surface penalty is the last step: a rough road gets half the speed of the same road smooth. */
  lemma RoughHalvesLast(e: EdgeState, smooth: nat, density: nat, urbanRcSpeed: seq<nat>, c: Constants)
    requires |urbanRcSpeed| == 8 && IsRough(e, c) && smooth < c.pavedRough
    ensures RoadSpeed(e, density, urbanRcSpeed, c) == RoadSpeed(e.(surface := smooth), density, urbanRcSpeed, c) / 2
  {
  }

  /**
   * Past the urban step, a road without a service use is only ever slowed: the
   * roundabout factor and the surface penalty never raise the speed.
   */
  lemma RoadNeverAboveBase(e: EdgeState, density: nat, urbanRcSpeed: seq<nat>, c: Constants)
    requires |urbanRcSpeed| == 8 && ServiceSpeed(e.use, c).None?
    ensures RoadSpeed(e, density, urbanRcSpeed, c) <=
      if density > UrbanDensity then urbanRcSpeed[e.rc] else e.speed
  {
    var base := if density > UrbanDensity then urbanRcSpeed[e.rc] else e.speed;
    ScaleSlows(base, RoundaboutFactor);
  }

  /** Because the tagged branch comes first, a tagged ferry never gets a ferry speed. */
  lemma TaggedFerryKeepsTaggedSpeed(e: EdgeState, density: nat, urbanRcSpeed: seq<nat>, infer: bool, c: Constants)
    requires |urbanRcSpeed| == 8 && !e.link && e.tagged
    ensures HeuristicSpeed(e, density, urbanRcSpeed, infer, c) == TaggedSpeed(e, c)
  {
  }

  /** An untagged rail ferry that is not a link runs at 65 whatever its length and density. */
  lemma RailFerryFixed(e: EdgeState, density: nat, urbanRcSpeed: seq<nat>, infer: bool, c: Constants)
    requires |urbanRcSpeed| == 8 && !e.link && !e.tagged && e.use == RailFerry
    ensures HeuristicSpeed(e, density, urbanRcSpeed, infer, c) == RailFerrySpeed
  {
  }

  /** Worked values: a turn channel 40 becomes 50, a ramp 40 becomes 34, or 32 on a dense motorway. */
  lemma LinkExamples(e: EdgeState, c: Constants)
    requires e.link && !e.tagged && e.speed == 40
    ensures e.use == TurnChannel ==> LinkSpeed(e, 0, true, c) == 50
    ensures e.use == Ramp ==> LinkSpeed(e, 0, false, c) == 34
    ensures e.use == Ramp && e.rc == c.motorway ==> LinkSpeed(e, 9, false, c) == 32
    ensures e.use == Ramp && e.rc != c.motorway && e.rc != c.trunk && e.rc != c.primary ==>
      LinkSpeed(e, 9, false, c) == 34
  {
  }

  /** Worked values: the ferry tiers at their boundaries. */
  lemma FerryExamples(e: EdgeState)
    requires e.use == Ferry && !e.leavesTile
    ensures e.length == 1999 ==> FerrySpeed(e) == 10
    ensures e.length == 2000 ==> FerrySpeed(e) == 20
    ensures e.length == 7999 ==> FerrySpeed(e) == 20
    ensures e.length == 8000 ==> FerrySpeed(e) == 30
  {
  }
}
