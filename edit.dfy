/**
 * `src/AA/Edit.js`: the two-click measurement tool. The component keeps
 * the clicked points waiting for a partner (`points`) and the finished
 * measurements (`measurements`); `handleClick` buffers a point and, on the
 * second one, emits a record and empties the buffer.
 *
 * A record keeps the unit factor in place of the distance string:
 * the source stores `(start.distanceTo(end) * factor).toFixed(2)`, whose
 * square root and rounding are floating point and are not modelled.
 */
module Edit {
  import opened Wrappers
  import opened Scene

  /** One row of the `units` table. */
  datatype Unit = Unit(name: string, value: string, factor: real)  // name: the `label` shown in the picker

  /** The `units` picker table: six rows, no key twice, metres third (the row a missing key falls back to). */
  function Units(): (r: seq<Unit>)
    ensures |r| == 6 && r[2] == Unit("Mètres", "m", 1.0)
    ensures forall i, j :: 0 <= i < j < |r| ==> r[i].value != r[j].value
  { [
    Unit("Millimètres", "mm", 1000.0),
    Unit("Centimètres", "cm", 100.0),
    Unit("Mètres", "m", 1.0),
    Unit("Kilomètres", "km", 0.001),
    Unit("Pouces", "in", 39.3701),
    Unit("Pieds", "ft", 3.28084)
  ] }

  /** `table.find(u => u.value === key)`, searching from index `from`: the first row whose value is `key`. */
  function Find(table: seq<Unit>, key: string, from: nat := 0): (r: Option<nat>)
    requires from <= |table|
    ensures r.Some? ==> from <= r.value < |table| && table[r.value].value == key
    decreases |table| - from
  {
    if from == |table| then None
    else if table[from].value == key then Some(from)
    else Find(table, key, from + 1)
  }

  /** `Find` returns the first matching row, and nothing only when no row matches. */
  lemma {:induction false} FindFirst(table: seq<Unit>, key: string, from: nat)
    requires from <= |table|
    ensures var r := Find(table, key, from);
      && (r.Some? ==> forall j :: from <= j < r.value ==> table[j].value != key)
      && (r.None? ==> forall j :: from <= j < |table| ==> table[j].value != key)
    decreases |table| - from
  {
    if from < |table| && table[from].value != key {
      FindFirst(table, key, from + 1);
    }
  }

  /** `units.find(u => u.value === unit) || units[2]`: the row for `unit`, the third row when there is none. */
  function UnitIn(units: seq<Unit>, unit: string): (u: Unit)
    requires |units| > 2
    ensures u in units
    ensures u.value == unit || u == units[2]
  {
    match Find(units, unit)
    case Some(i) => units[i]
    case None => units[2]
  }

  /** The row of the component's own table: metres when there is none. */
  function UnitFor(unit: string): (u: Unit)
    ensures u in Units()
    ensures u.value == unit || u == Unit("Mètres", "m", 1.0)
  {
    UnitIn(Units(), unit)
  }

  /** The six unit keys and their factors; any other key is measured and labelled in metres. */
  lemma UnitTable(unit: string)
    ensures unit == "mm" ==> UnitFor(unit).factor == 1000.0
    ensures unit == "cm" ==> UnitFor(unit).factor == 100.0
    ensures unit == "m" ==> UnitFor(unit).factor == 1.0
    ensures unit == "km" ==> UnitFor(unit).factor == 0.001
    ensures unit == "in" ==> UnitFor(unit).factor == 39.3701
    ensures unit == "ft" ==> UnitFor(unit).factor == 3.28084
    ensures unit !in ["mm", "cm", "m", "km", "in", "ft"] ==> UnitFor(unit) == Unit("Mètres", "m", 1.0)
  {
    var r := Find(Units(), unit);
    if r.Some? {
      assert Units()[r.value].value == unit;
    }
  }

  /** The recorded unit is the key itself when it is in the table, "m" otherwise. */
  lemma RecordedUnit(unit: string)
    ensures UnitFor(unit).value == if unit in ["mm", "cm", "m", "km", "in", "ft"] then unit else "m"
  {
    UnitTable(unit);
    FindFirst(Units(), unit, 0);
    var r := Find(Units(), unit);
    if r.Some? {
      assert Units()[r.value].value == unit;
    } else {
      assert forall j :: 0 <= j < |Units()| ==> Units()[j].value != unit;
      assert unit != Units()[0].value && unit != Units()[1].value && unit != Units()[2].value;
      assert unit != Units()[3].value && unit != Units()[4].value && unit != Units()[5].value;
    }
  }

  /** One finished measurement, in click order. */
  datatype Measurement = Measurement(
    start: Vec3,
    end: Vec3,
    factor: real,
    unit: string,
    stylusType: string,
    stylusColor: string)

  /** A click on the object, with the component's props at that moment. */
  datatype Click = Click(
    point: Vec3,
    isStylusActive: bool,
    hasObject: bool,
    unit: string,
    stylusType: string,
    stylusColor: string)

  /** The component's two state arrays. */
  datatype Tool = Tool(points: seq<Vec3>, measurements: seq<Measurement>)

  /** What `handleClick` does to the state, `units` being the table it looks the unit up in. */
  function Step(units: seq<Unit>, t: Tool, c: Click): (r: Tool)
    requires |units| > 2
    ensures t.measurements <= r.measurements
    ensures |t.points| <= 1 ==> |r.points| <= 1
    ensures r != t ==> Accepted(c)
  {
    if !c.isStylusActive || !c.hasObject then t
    else
      var newPoints := t.points + [c.point];
      if |newPoints| == 2 then
        var u := UnitIn(units, c.unit);
        Tool([], t.measurements + [Measurement(newPoints[0], newPoints[1], u.factor, u.value, c.stylusType, c.stylusColor)])
      else
        Tool(newPoints, t.measurements)
  }

  predicate Accepted(c: Click)
  {
    c.isStylusActive && c.hasObject
  }

  /** A click with the stylus off or no object changes nothing. */
  lemma IgnoredClick(units: seq<Unit>, t: Tool, c: Click)
    requires |units| > 2
    requires !Accepted(c)
    ensures Step(units, t, c) == t
  {
  }

  /** The buffer never holds more than one point. */
  lemma BufferAtMostOne(units: seq<Unit>, t: Tool, c: Click)
    requires |units| > 2
    requires |t.points| <= 1
    ensures |Step(units, t, c).points| <= 1
    ensures Accepted(c) ==> (|Step(units, t, c).points| == 1 <==> t.points == [])
  {
  }

  /**
   * Measurements only grow, by one record exactly when an accepted click
   * completes a pair; earlier records are kept as they were.
   */
  lemma AppendOnly(units: seq<Unit>, t: Tool, c: Click)
    requires |units| > 2
    requires |t.points| <= 1
    ensures t.measurements <= Step(units, t, c).measurements
    ensures |Step(units, t, c).measurements| == |t.measurements| + (if Accepted(c) && |t.points| == 1 then 1 else 0)
  {
  }

  /** The record a pair of clicks makes: first to second, with the second click's unit and style. */
  function Record(units: seq<Unit>, first: Click, second: Click): Measurement
    requires |units| > 2
  {
    var u := UnitIn(units, second.unit);
    Measurement(first.point, second.point, u.factor, u.value, second.stylusType, second.stylusColor)
  }

  /** Two accepted clicks from an empty buffer add their record and leave the buffer empty. */
  lemma PairMakesRecord(units: seq<Unit>, ms: seq<Measurement>, c1: Click, c2: Click)
    requires |units| > 2
    requires Accepted(c1) && Accepted(c2)
    ensures Step(units, Tool([], ms), c1) == Tool([c1.point], ms)
    ensures Step(units, Step(units, Tool([], ms), c1), c2) == Tool([], ms + [Record(units, c1, c2)])
  {
  }

  /** Running the clicks in turn. */
  function Run(units: seq<Unit>, t: Tool, clicks: seq<Click>): Tool
    requires |units| > 2
    decreases |clicks|
  {
    if clicks == [] then t else Run(units, Step(units, t, clicks[0]), clicks[1..])
  }

  /** The records a run of clicks should make: clicks 0 and 1, then 2 and 3, and so on. */
  function Pairs(units: seq<Unit>, clicks: seq<Click>): seq<Measurement>
    requires |units| > 2
    decreases |clicks|
  {
    if |clicks| < 2 then [] else [Record(units, clicks[0], clicks[1])] + Pairs(units, clicks[2..])
  }

  /**
   * From an empty buffer, accepted clicks pair up in order, a third click
   * starts a new pair, and an odd last click waits alone in the buffer.
   */
  lemma {:induction false} ClicksPairInOrder(units: seq<Unit>, ms: seq<Measurement>, clicks: seq<Click>)
    requires |units| > 2
    requires forall i :: 0 <= i < |clicks| ==> Accepted(clicks[i])
    ensures Run(units, Tool([], ms), clicks).measurements == ms + Pairs(units, clicks)
    ensures Run(units, Tool([], ms), clicks).points == if |clicks| % 2 == 1 then [clicks[|clicks| - 1].point] else []
    decreases |clicks|
  {
    if |clicks| == 1 {
      RunSingle(units, ms, clicks);
    } else if |clicks| >= 2 {
      var rest, record := clicks[2..], Record(units, clicks[0], clicks[1]);
      RunPair(units, ms, clicks);
      assert forall i :: 0 <= i < |rest| ==> Accepted(rest[i]) by {
        forall i | 0 <= i < |rest| ensures Accepted(rest[i]) {
          assert rest[i] == clicks[i + 2];
        }
      }
      ClicksPairInOrder(units, ms + [record], rest);
      PairsCons(units, ms, clicks);
      assert |rest| % 2 == |clicks| % 2;
      if |rest| > 0 {
        assert rest[|rest| - 1] == clicks[|clicks| - 1];
      }
    }
  }

  lemma PairsCons(units: seq<Unit>, ms: seq<Measurement>, clicks: seq<Click>)
    requires |units| > 2
    requires |clicks| >= 2
    ensures ms + [Record(units, clicks[0], clicks[1])] + Pairs(units, clicks[2..]) == ms + Pairs(units, clicks)
  {
  }

  /** A lone accepted click waits in the buffer. */
  lemma RunSingle(units: seq<Unit>, ms: seq<Measurement>, clicks: seq<Click>)
    requires |units| > 2
    requires |clicks| == 1 && Accepted(clicks[0])
    ensures Run(units, Tool([], ms), clicks) == Tool([clicks[0].point], ms)
  {
    assert Run(units, Tool([], ms), clicks) == Run(units, Tool([clicks[0].point], ms), clicks[1..]);
  }

  /** The first two accepted clicks of a run, taken from an empty buffer, complete one record. */
  lemma RunPair(units: seq<Unit>, ms: seq<Measurement>, clicks: seq<Click>)
    requires |units| > 2
    requires |clicks| >= 2 && Accepted(clicks[0]) && Accepted(clicks[1])
    ensures Run(units, Tool([], ms), clicks) == Run(units, Tool([], ms + [Record(units, clicks[0], clicks[1])]), clicks[2..])
  {
    assert clicks[1..][0] == clicks[1] && clicks[1..][1..] == clicks[2..];
    PairMakesRecord(units, ms, clicks[0], clicks[1]);
  }

  /** How a record is drawn: dashed exactly when its type is "dashed", in its own colour. */
  datatype LineStyle = Dashed(color: string, width: nat, dashSize: real, gapSize: real) | Solid(color: string, width: nat)

  function StyleOf(m: Measurement): (s: LineStyle)
    ensures s.Dashed? <==> m.stylusType == "dashed"
    ensures s.color == m.stylusColor && s.width == 2
  {
    if m.stylusType == "dashed" then Dashed(m.stylusColor, 2, 0.1, 0.1) else Solid(m.stylusColor, 2)
  }

  /** The `Edit` component's state and its click handler. */
  class MeasureTool {
    var points: seq<Vec3>
    var measurements: seq<Measurement>

    ghost predicate Valid()
      reads this
    {
      |points| <= 1
    }

    constructor ()
      ensures Valid() && points == [] && measurements == []
    {
      points := [];
      measurements := [];
    }

    /** `handleClick`: ignore the click, buffer its point, or emit a record and empty the buffer. */
    method HandleClick(c: Click)
      requires Valid()
      modifies this
      ensures Valid()
      ensures Tool(points, measurements) == Step(Units(), Tool(old(points), old(measurements)), c)
    {
      if !c.isStylusActive || !c.hasObject {
        return;
      }
      var newPoints := points + [c.point];
      if |newPoints| == 2 {
        var u := UnitFor(c.unit);
        measurements := measurements + [Measurement(newPoints[0], newPoints[1], u.factor, u.value, c.stylusType, c.stylusColor)];
        points := [];
      } else {
        points := newPoints;
      }
    }
  }
}
