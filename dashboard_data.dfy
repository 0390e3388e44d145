/** The deterministic skeleton of the dashboard's mock data generators
    (app/page.tsx): every `Math.random()` call is a caller-supplied real in
    [0, 1), and `Math.floor(Math.random() * n) + k` is computed from it
    exactly. Float fields and timestamps are not modelled. */
module DashboardData {
  import opened Text

  /** A value `Math.random()` can return. */
  type Random = r: real | 0.0 <= r < 1.0

  const VesselTypes: seq<string> := ["Cargo", "Tanker", "Fishing", "Passenger", "Tug"]
  const Statuses: seq<string> := ["Active", "Anchored", "Maintenance"]
  const AlertTypes: seq<string> := ["Collision Risk", "Weather Warning", "Pollution Alert", "Restricted Area"]
  const Severities: seq<string> := ["Low", "Medium", "High"]

  /** `i < 12` in generateVesselData. */
  const VesselCount := 12

  /** `Math.floor(r * n)`: an index into a list of length n. */
  function ScaledFloor(r: Random, n: nat): (k: int)
    requires n > 0
    ensures 0 <= k < n
  {
    assert r * n as real < n as real by {
      assert (1.0 - r) * n as real > 0.0;
    }
    (r * n as real).Floor
  }

  /** `list[Math.floor(Math.random() * list.length)]` */
  function Pick(list: seq<string>, r: Random): (s: string)
    requires |list| > 0
    ensures s in list
  {
    list[ScaledFloor(r, |list|)]
  }

  // ---------------------------------------------------------------------
  // Vessels
  // ---------------------------------------------------------------------

  datatype Vessel = Vessel(id: string, name: string, vesselType: string, status: string)

  datatype VesselDraw = VesselDraw(typeDraw: Random, statusDraw: Random)

  /** `V${1000 + n}` */
  function VesselId(n: nat): string
  {
    "V" + Decimal(1000 + n)
  }

  function VesselRecord(i: nat, d: VesselDraw): (v: Vessel)
    requires i < VesselCount
    ensures v.vesselType in VesselTypes && v.status in Statuses
  {
    Vessel(VesselId(i), "Vessel " + [(65 + i) as char], Pick(VesselTypes, d.typeDraw), Pick(Statuses, d.statusDraw))
  }

  /** The array generateVesselData returns for the given draws. */
  function Fleet(draws: seq<VesselDraw>): (fleet: seq<Vessel>)
    requires |draws| == VesselCount
    ensures |fleet| == VesselCount
  {
    seq(VesselCount, i requires 0 <= i < VesselCount => VesselRecord(i, draws[i]))
  }

  /** generateVesselData: one record pushed per index, in index order. */
  method GenerateVesselData(draws: seq<VesselDraw>) returns (vessels: seq<Vessel>)
    requires |draws| == VesselCount
    ensures vessels == Fleet(draws)
  {
    vessels := [];
    for i := 0 to VesselCount
      invariant |vessels| == i
      invariant forall j :: 0 <= j < i ==> vessels[j] == VesselRecord(j, draws[j])
    {
      vessels := vessels + [VesselRecord(i, draws[i])];
    }
  }

  /** Twelve records with ids V1000 .. V1011, names "Vessel A" .. "Vessel L",
      and type and status taken from their lists. */
  lemma FleetRecords(draws: seq<VesselDraw>)
    requires |draws| == VesselCount
    ensures |Fleet(draws)| == 12
    ensures forall i :: 0 <= i < 12 ==>
      Fleet(draws)[i].id == "V" + Decimal(1000 + i)
      && Fleet(draws)[i].name == "Vessel " + [(65 + i) as char]
      && 'A' <= Fleet(draws)[i].name[7] <= 'L'
      && Fleet(draws)[i].vesselType in VesselTypes
      && Fleet(draws)[i].status in Statuses
  {
  }

  /** No two vessels share an id. */
  lemma FleetIdsDistinct(draws: seq<VesselDraw>, i: nat, j: nat)
    requires |draws| == VesselCount
    requires i < j < VesselCount
    ensures Fleet(draws)[i].id != Fleet(draws)[j].id
  {
    assert Fleet(draws)[i].id == VesselId(i) && Fleet(draws)[j].id == VesselId(j);
    if VesselId(i) == VesselId(j) {
      PrefixedDecimalInjective("V", 1000 + i, 1000 + j);
    }
  }

  // ---------------------------------------------------------------------
  // Environment (integer fields only)
  // ---------------------------------------------------------------------

  datatype Environment = Environment(pollutionIndex: int, biodiversityScore: int)

  /** generateEnvironmentalData: `floor(r * 60) + 20` and `floor(r * 35) + 60`. */
  function GenerateEnvironmentalData(pollutionDraw: Random, biodiversityDraw: Random): (e: Environment)
    ensures 20 <= e.pollutionIndex <= 79
    ensures 60 <= e.biodiversityScore <= 94
  {
    Environment(ScaledFloor(pollutionDraw, 60) + 20, ScaledFloor(biodiversityDraw, 35) + 60)
  }

  /** The bounds are tight: every index in [20, 79] and every score in
      [60, 94] comes out of some pair of draws. */
  lemma EnvironmentRangeAttained(pollution: int, biodiversity: int)
    requires 20 <= pollution <= 79 && 60 <= biodiversity <= 94
    ensures exists p: Random, b: Random :: GenerateEnvironmentalData(p, b) == Environment(pollution, biodiversity)
  {
    var p: Random := (pollution - 20) as real / 60.0;
    var b: Random := (biodiversity - 60) as real / 35.0;
    assert p * 60.0 == (pollution - 20) as real;
    assert b * 35.0 == (biodiversity - 60) as real;
    assert GenerateEnvironmentalData(p, b) == Environment(pollution, biodiversity);
  }

  // ---------------------------------------------------------------------
  // Alerts
  // ---------------------------------------------------------------------

  datatype Alert = Alert(id: string, alertType: string, severity: string, message: string, vesselId: string)

  datatype AlertDraw = AlertDraw(typeDraw: Random, severityDraw: Random, sectorDraw: Random, vesselDraw: Random)

  /** `Math.floor(Math.random() * 5) + 2`, drawn anew each time the
      loop condition is evaluated. */
  function LoopBound(r: Random): (b: int)
    ensures 2 <= b <= 6
  {
    ScaledFloor(r, 5) + 2
  }

  /** `Math.floor(Math.random() * 10) + 1` */
  function Sector(r: Random): (s: int)
    ensures 1 <= s <= 10
  {
    ScaledFloor(r, 10) + 1
  }

  /** The condition is evaluated at most seven times (i = 0 .. 6). */
  const BoundTests := 7
  /** At most six alerts are built. */
  const MaxAlerts := 6

  function AlertRecord(i: nat, d: AlertDraw): (a: Alert)
    ensures a.alertType in AlertTypes && a.severity in Severities
  {
    Alert("A" + Decimal(1000 + i), Pick(AlertTypes, d.typeDraw), Pick(Severities, d.severityDraw),
          "Alert detected in sector " + Decimal(Sector(d.sectorDraw)),
          VesselId(ScaledFloor(d.vesselDraw, VesselCount)))
  }

  /** The number of iterations once the loop has reached `i`: the first
      index from `i` on at which the freshly drawn bound no longer exceeds it. */
  function AlertCountFrom(boundDraws: seq<Random>, i: nat): (n: nat)
    requires |boundDraws| == BoundTests && i <= MaxAlerts
    ensures i <= n <= MaxAlerts
    ensures n >= LoopBound(boundDraws[n])
    ensures forall j :: i <= j < n ==> j < LoopBound(boundDraws[j])
    decreases MaxAlerts - i
  {
    if i >= LoopBound(boundDraws[i]) then i else AlertCountFrom(boundDraws, i + 1)
  }

  /** The number of alerts generateAlerts returns. */
  function AlertCount(boundDraws: seq<Random>): (n: nat)
    requires |boundDraws| == BoundTests
    ensures 2 <= n <= 6
    ensures n >= LoopBound(boundDraws[n])
    ensures forall j :: 0 <= j < n ==> j < LoopBound(boundDraws[j])
  {
    assert LoopBound(boundDraws[0]) > 0 && LoopBound(boundDraws[1]) > 1;
    AlertCountFrom(boundDraws, 0)
  }

  /** Every count from 2 to 6 happens for some sequence of bound draws. */
  lemma AlertCountAttained(n: nat)
    requires 2 <= n <= 6
    ensures exists boundDraws: seq<Random> :: |boundDraws| == BoundTests && AlertCount(boundDraws) == n
  {
    var high: Random := 0.8;
    var low: Random := 0.0;
    var boundDraws: seq<Random> := seq(BoundTests, j => if j < n then high else low);
    assert LoopBound(high) == 6 && LoopBound(low) == 2;
    assert AlertCount(boundDraws) == n;
  }

  /** generateAlerts: the loop bound is drawn anew before every iteration. */
  method GenerateAlerts(boundDraws: seq<Random>, draws: seq<AlertDraw>) returns (alerts: seq<Alert>)
    requires |boundDraws| == BoundTests && |draws| == MaxAlerts
    ensures 2 <= |alerts| <= 6
    ensures |alerts| == AlertCount(boundDraws)
    ensures forall i :: 0 <= i < |alerts| ==> alerts[i] == AlertRecord(i, draws[i])
  {
    alerts := [];
    var i := 0;
    while i < LoopBound(boundDraws[i])
      invariant 0 <= i <= MaxAlerts && |alerts| == i
      invariant AlertCountFrom(boundDraws, i) == AlertCount(boundDraws)
      invariant forall j :: 0 <= j < i ==> alerts[j] == AlertRecord(j, draws[j])
      decreases MaxAlerts - i
    {
      alerts := alerts + [AlertRecord(i, draws[i])];
      i := i + 1;
    }
  }

  /** Alert ids are A1000, A1001, ...; each names a sector from 1 to 10 and a
      vessel id of the twelve generated vessels. */
  lemma AlertRecordFields(i: nat, d: AlertDraw, vesselDraws: seq<VesselDraw>)
    requires |vesselDraws| == VesselCount
    ensures AlertRecord(i, d).id == "A" + Decimal(1000 + i)
    ensures exists s :: 1 <= s <= 10 && AlertRecord(i, d).message == "Alert detected in sector " + Decimal(s)
    ensures exists k :: 0 <= k < |Fleet(vesselDraws)| && AlertRecord(i, d).vesselId == Fleet(vesselDraws)[k].id
    ensures AlertRecord(i, d).alertType in AlertTypes && AlertRecord(i, d).severity in Severities
  {
    var k := ScaledFloor(d.vesselDraw, VesselCount);
    assert Fleet(vesselDraws)[k] == VesselRecord(k, vesselDraws[k]);
    var s := Sector(d.sectorDraw);
    assert AlertRecord(i, d).message == "Alert detected in sector " + Decimal(s);
  }
}
