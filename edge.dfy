/**
 * The parts of `DirectedEdge` and of the enumerations and constants it uses that the
 * speed assigner reads. They are defined outside src/mjolnir/speed_assigner.h; their
 * bit-packed storage, the exact enumeration ordinals and the constants' values are
 * not part of this model and enter as parameters (`Constants`).
 */
module Edges {

  /** A road-class ordinal: 0 is the class of highest capacity, there are eight. */
  type RoadClass = rc: nat | rc < 8

  /** The uses the speed assigner distinguishes; every other use is `OtherUse`. */
  datatype Use =
    | Road | Ramp | TurnChannel | Driveway | Alley | ParkingAisle | DriveThru
    | Ferry | RailFerry | OtherUse

  /** Constants defined elsewhere, kept abstract. */
  datatype Constants = Constants(
    motorway: RoadClass,       // RoadClass::kMotorway
    trunk: RoadClass,          // RoadClass::kTrunk
    primary: RoadClass,        // RoadClass::kPrimary
    pavedRough: nat,           // Surface::kPavedRough
    parkingAisleSpeed: nat,    // kParkingAisleSpeed
    drivewaySpeed: nat,        // kDrivewaySpeed
    driveThruSpeed: nat,       // kDriveThruSpeed
    vehicularAccess: bv32)     // kVehicularAccess

  /** A snapshot of the attributes of a directed edge that the speed assigner uses. */
  datatype EdgeState = EdgeState(
    speed: nat,
    use: Use,
    rc: RoadClass,             // classification()
    link: bool,
    roundabout: bool,
    sign: bool,                // has exit signage
    forwardAccess: bv32,
    reverseAccess: bv32,
    tagged: bool,              // speed_type() == SpeedType::kTagged
    surface: nat,
    length: nat,
    leavesTile: bool)

  /** Some direction of the edge is open to a motor vehicle. */
  predicate HasVehicularAccess(e: EdgeState, c: Constants) {
    (e.forwardAccess | e.reverseAccess) & c.vehicularAccess != 0
  }

  /** The surface is `Surface::kPavedRough` or worse. */
  predicate IsRough(e: EdgeState, c: Constants) {
    e.surface >= c.pavedRough
  }

  /** The directed edge the builder hands over; the speed assigner writes only `speed`. */
  class DirectedEdge {
    var speed: nat
    var use: Use
    var rc: RoadClass
    var link: bool
    var roundabout: bool
    var sign: bool
    var forwardAccess: bv32
    var reverseAccess: bv32
    var tagged: bool
    var surface: nat
    var length: nat
    var leavesTile: bool

    function State(): EdgeState
      reads this
    {
      EdgeState(speed, use, rc, link, roundabout, sign, forwardAccess, reverseAccess,
                tagged, surface, length, leavesTile)
    }

    constructor (s: EdgeState)
      ensures State() == s
    {
      speed, use, rc, link, roundabout, sign := s.speed, s.use, s.rc, s.link, s.roundabout, s.sign;
      forwardAccess, reverseAccess, tagged := s.forwardAccess, s.reverseAccess, s.tagged;
      surface, length, leavesTile := s.surface, s.length, s.leavesTile;
    }
  }
}
