/**
 * `SpeedAssigner::SpeedTable` (src/mjolnir/speed_assigner.h): the fixed-shape table of
 * configured speeds for one region and one of urban/rural, and how it is read from
 * one JSON object of the configuration document.
 */
module SpeedTables {

  import opened Wrappers
  import opened Json

  /** Cardinalities of the table's arrays: one entry per road class, five link classes. */
  const WayCount: nat := 8
  const LinkCount: nat := 5
  const RoundaboutCount: nat := 8
  const ServiceCount: nat := 4

  /**
   * `way`, `linkExiting`, `linkTurning` and `roundabout` are indexed by road-class
   * ordinal; `service` holds driveway, alley, parking aisle and drive-through, in
   * that order.
   */
  datatype SpeedTable = SpeedTable(
    way: seq<nat>,
    linkExiting: seq<nat>,
    linkTurning: seq<nat>,
    roundabout: seq<nat>,
    service: seq<nat>)

  /** Every array has the length its `std::array` has. */
  predicate WellShaped(t: SpeedTable) {
    |t.way| == WayCount && |t.linkExiting| == LinkCount && |t.linkTurning| == LinkCount &&
    |t.roundabout| == RoundaboutCount && |t.service| == ServiceCount
  }

  /** Every entry fits the `uint32_t` it is stored in. */
  predicate Bounded(t: SpeedTable) {
    AllBelow(t.way, Uint32Limit) && AllBelow(t.linkExiting, Uint32Limit) &&
    AllBelow(t.linkTurning, Uint32Limit) && AllBelow(t.roundabout, Uint32Limit) &&
    AllBelow(t.service, Uint32Limit)
  }

  predicate AllBelow(xs: seq<nat>, limit: nat) {
    forall i :: 0 <= i < |xs| ==> xs[i] < limit
  }

  /** The JSON array whose i-th element is the number `xs[i]`. */
  function UintArray(xs: seq<nat>): (r: Json)
    ensures r.JArray? && |r.items| == |xs|
    ensures forall i :: 0 <= i < |xs| ==> r.items[i] == JUint(xs[i])
  {
    JArray(seq(|xs|, i requires 0 <= i < |xs| => JUint(xs[i])))
  }

  /**
   * `obj` is a JSON object whose eight members spell out `t`: each array position
   * for position, and the four scalar service speeds.
   */
  predicate Describes(obj: Json, t: SpeedTable)
    requires WellShaped(t)
  {
    Member(obj, "way") == Some(UintArray(t.way)) &&
    Member(obj, "link_exiting") == Some(UintArray(t.linkExiting)) &&
    Member(obj, "link_turning") == Some(UintArray(t.linkTurning)) &&
    Member(obj, "roundabout") == Some(UintArray(t.roundabout)) &&
    Member(obj, "driveway") == Some(JUint(t.service[0])) &&
    Member(obj, "alley") == Some(JUint(t.service[1])) &&
    Member(obj, "parking_aisle") == Some(JUint(t.service[2])) &&
    Member(obj, "drive-through") == Some(JUint(t.service[3]))
  }

  /** The configuration object written for `t`: the inverse of `TableOf`. */
  function TableJson(t: SpeedTable): (r: Json)
    requires WellShaped(t)
    ensures Describes(r, t)
  {
    JObject(map[
      "way" := UintArray(t.way),
      "link_exiting" := UintArray(t.linkExiting),
      "link_turning" := UintArray(t.linkTurning),
      "roundabout" := UintArray(t.roundabout),
      "driveway" := JUint(t.service[0]),
      "alley" := JUint(t.service[1]),
      "parking_aisle" := JUint(t.service[2]),
      "drive-through" := JUint(t.service[3])])
  }

  /** The numbers of a JSON array, or None if `GetUint` refuses any element. */
  function UintsOf(items: seq<Json>): (r: Option<seq<nat>>)
    ensures r.Some? <==> forall i :: 0 <= i < |items| ==> IsUint(items[i])
    ensures r.Some? ==> |r.value| == |items|
    ensures r.Some? ==> forall i :: 0 <= i < |items| ==> items[i] == JUint(r.value[i])
  {
    if items == [] then Some([])
    else
      var last := items[|items| - 1];
      match UintsOf(items[..|items| - 1])
      case None => None
      case Some(front) => if IsUint(last) then Some(front + [last.n]) else None
  }

  /**
   * What `parse(obj, name, entries)` stores for an array of `size` entries, or None
   * where it throws: the member is missing or not an array, has another length
   * (line 65), or holds an element `GetUint` refuses.
   */
  function ArrayOf(obj: Json, name: string, size: nat): (r: Option<seq<nat>>)
    ensures r.Some? <==>
      Member(obj, name).Some? && Member(obj, name).value.JArray? &&
      |Member(obj, name).value.items| == size &&
      forall i :: 0 <= i < size ==> IsUint(Member(obj, name).value.items[i])
    ensures r.Some? ==> Member(obj, name) == Some(UintArray(r.value)) && AllBelow(r.value, Uint32Limit)
  {
    match Member(obj, name)
    case Some(JArray(items)) =>
      if |items| != size then None
      else
        var r := UintsOf(items);
        assert r.Some? ==> UintArray(r.value).items == items;
        r
    case _ => None
  }

  /** The table `SpeedTable(obj)` builds, or None where the constructor throws. */
  function TableOf(obj: Json): (r: Option<SpeedTable>)
    ensures r.Some? ==> WellShaped(r.value) && Bounded(r.value) && Describes(obj, r.value)
  {
    var way := ArrayOf(obj, "way", WayCount);
    var exiting := ArrayOf(obj, "link_exiting", LinkCount);
    var turning := ArrayOf(obj, "link_turning", LinkCount);
    var roundabout := ArrayOf(obj, "roundabout", RoundaboutCount);
    var driveway := UintMember(obj, "driveway");
    var alley := UintMember(obj, "alley");
    var parkingAisle := UintMember(obj, "parking_aisle");
    var driveThrough := UintMember(obj, "drive-through");
    if way.Some? && exiting.Some? && turning.Some? && roundabout.Some? &&
       driveway.Some? && alley.Some? && parkingAisle.Some? && driveThrough.Some?
    then
      Some(SpeedTable(way.value, exiting.value, turning.value, roundabout.value,
                      [driveway.value, alley.value, parkingAisle.value, driveThrough.value]))
    else None
  }

  /** The array `xs` that a JSON array of numbers stands for is unique. */
  lemma UintArrayInjective(xs: seq<nat>, ys: seq<nat>)
    requires UintArray(xs) == UintArray(ys)
    ensures xs == ys
  {
    assert |xs| == |ys|;
    forall i | 0 <= i < |xs| ensures xs[i] == ys[i] {
      assert UintArray(xs).items[i] == UintArray(ys).items[i];
    }
  }

  /**
   * Reading succeeds on exactly the objects that describe a well-shaped table of
   * 32-bit speeds, and then yields that table: with `TableOf`'s postcondition, this
   * makes `TableOf(obj) == Some(t)` equivalent to `Describes(obj, t)`.
   */
  lemma TableOfComplete(obj: Json, t: SpeedTable)
    requires WellShaped(t) && Bounded(t) && Describes(obj, t)
    ensures TableOf(obj) == Some(t)
  {
    var r := TableOf(obj);
    assert r.Some?;
    UintArrayInjective(r.value.way, t.way);
    UintArrayInjective(r.value.linkExiting, t.linkExiting);
    UintArrayInjective(r.value.linkTurning, t.linkTurning);
    UintArrayInjective(r.value.roundabout, t.roundabout);
    assert r.value.service == t.service;
  }

  /** Writing a table and reading it back gives the same table. */
  lemma TableRoundTrip(t: SpeedTable)
    requires WellShaped(t) && Bounded(t)
    ensures TableOf(TableJson(t)) == Some(t)
  {
    TableOfComplete(TableJson(t), t);
  }

  /**
   * `parse`: fills an array of `size` entries from the JSON array `obj[name]`, one
   * element after the other, after checking its length.
   */
  method Parse(obj: Json, name: string, size: nat) returns (r: Option<seq<nat>>)
    ensures r == ArrayOf(obj, name, size)
  {
    var arr := Member(obj, name);
    if arr.None? || !arr.value.JArray? {
      return None;
    }
    var items := arr.value.items;
    if |items| != size {
      return None;
    }
    var entries := new nat[size];
    var i := 0;
    while i < |items|
      invariant 0 <= i <= size
      invariant forall k :: 0 <= k < i ==> items[k] == JUint(entries[k]) && IsUint(items[k])
    {
      if !IsUint(items[i]) {
        return None;
      }
      entries[i] := items[i].n;
      i := i + 1;
    }
    r := Some(entries[..]);
    assert UintArray(entries[..]) == JArray(items);
    UintArrayInjective(ArrayOf(obj, name, size).value, entries[..]);
  }

  /** The `SpeedTable` constructor: the four arrays, then the four service speeds. */
  method BuildTable(obj: Json) returns (r: Option<SpeedTable>)
    ensures r == TableOf(obj)
  {
    var way := Parse(obj, "way", WayCount);
    var exiting := Parse(obj, "link_exiting", LinkCount);
    var turning := Parse(obj, "link_turning", LinkCount);
    var roundabout := Parse(obj, "roundabout", RoundaboutCount);
    if way.None? || exiting.None? || turning.None? || roundabout.None? {
      return None;
    }
    var driveway := UintMember(obj, "driveway");
    var alley := UintMember(obj, "alley");
    var parkingAisle := UintMember(obj, "parking_aisle");
    var driveThrough := UintMember(obj, "drive-through");
    if driveway.None? || alley.None? || parkingAisle.None? || driveThrough.None? {
      return None;
    }
    r := Some(SpeedTable(way.value, exiting.value, turning.value, roundabout.value,
                         [driveway.value, alley.value, parkingAisle.value, driveThrough.value]));
  }

  /** A cell of a speed table: which array, and the position in it. */
  datatype Cell =
    | WayCell(rc: nat)
    | LinkExitingCell(rc: nat)
    | LinkTurningCell(rc: nat)
    | RoundaboutCell(rc: nat)
    | ServiceCell(k: nat)

  /** The cell exists in every well-shaped table. */
  predicate InTable(c: Cell) {
    match c
    case WayCell(i) => i < WayCount
    case LinkExitingCell(i) => i < LinkCount
    case LinkTurningCell(i) => i < LinkCount
    case RoundaboutCell(i) => i < RoundaboutCount
    case ServiceCell(k) => k < ServiceCount
  }

  function CellValue(t: SpeedTable, c: Cell): nat
    requires WellShaped(t) && InTable(c)
  {
    match c
    case WayCell(i) => t.way[i]
    case LinkExitingCell(i) => t.linkExiting[i]
    case LinkTurningCell(i) => t.linkTurning[i]
    case RoundaboutCell(i) => t.roundabout[i]
    case ServiceCell(k) => t.service[k]
  }
}
