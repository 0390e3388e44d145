/** The deterministic skeleton of the server's mock data generators
    (app.py): every `random.choice` is an index drawn by the caller, every
    `random.randint(a, b)` a value the caller draws from [a, b]. Float fields
    and timestamps are not modelled. */
module ServerData {
  import opened Text

  const VesselTypes: seq<string> := ["Cargo", "Tanker", "Fishing", "Passenger", "Tug"]
  const VesselStatuses: seq<string> := ["Active", "Anchored", "Maintenance"]
  const AlertTypes: seq<string> := ["Collision Risk", "Weather Warning", "Pollution Alert", "Restricted Area"]
  const Severities: seq<string> := ["Low", "Medium", "High"]

  /** `range(15)` in generate_vessel_data. */
  const VesselCount := 15
  /** Hourly buckets in api_analytics. */
  const Hours := 24

  // ---------------------------------------------------------------------
  // Vessels
  // ---------------------------------------------------------------------

  datatype Vessel = Vessel(id: string, name: string, vesselType: string, status: string)

  /** The two `random.choice` outcomes of one vessel, as list indices. */
  datatype VesselDraw = VesselDraw(typeIndex: nat, statusIndex: nat)

  predicate ValidVesselDraw(d: VesselDraw)
  {
    d.typeIndex < |VesselTypes| && d.statusIndex < |VesselStatuses|
  }

  /** f'V{1000 + n}' */
  function VesselId(n: nat): string
  {
    "V" + Decimal(1000 + n)
  }

  /** f'Vessel {chr(65 + n)}' */
  function VesselName(n: nat): string
    requires 65 + n < 0xD800
  {
    "Vessel " + [(65 + n) as char]
  }

  /** The dict built for index i. */
  function VesselRecord(i: nat, d: VesselDraw): (v: Vessel)
    requires i < VesselCount && ValidVesselDraw(d)
    ensures v.vesselType in VesselTypes && v.status in VesselStatuses
  {
    Vessel(VesselId(i), VesselName(i), VesselTypes[d.typeIndex], VesselStatuses[d.statusIndex])
  }

  ghost predicate ValidVesselDraws(draws: seq<VesselDraw>)
  {
    |draws| == VesselCount && forall i :: 0 <= i < |draws| ==> ValidVesselDraw(draws[i])
  }

  /** The list generate_vessel_data returns for the given draws. */
  function Fleet(draws: seq<VesselDraw>): (fleet: seq<Vessel>)
    requires ValidVesselDraws(draws)
    ensures |fleet| == VesselCount
  {
    seq(VesselCount, i requires 0 <= i < VesselCount => VesselRecord(i, draws[i]))
  }

  /** generate_vessel_data: one record per index, appended in index order. */
  method GenerateVesselData(draws: seq<VesselDraw>) returns (vessels: seq<Vessel>)
    requires ValidVesselDraws(draws)
    ensures vessels == Fleet(draws)
  {
    vessels := [];
    for i := 0 to VesselCount
      invariant |vessels| == i
      invariant forall j :: 0 <= j < i ==> vessels[j] == VesselRecord(j, draws[j])
    {
      var vessel := VesselRecord(i, draws[i]);
      vessels := vessels + [vessel];
    }
  }

  /** Record i carries id V{1000+i} and the letter 65+i, so the names run
      "Vessel A" .. "Vessel O"; type and status come from their lists. */
  lemma FleetRecords(draws: seq<VesselDraw>)
    requires ValidVesselDraws(draws)
    ensures |Fleet(draws)| == 15
    ensures forall i :: 0 <= i < 15 ==>
      Fleet(draws)[i].id == "V" + Decimal(1000 + i)
      && Fleet(draws)[i].name == "Vessel " + [(65 + i) as char]
      && 'A' <= Fleet(draws)[i].name[7] <= 'O'
    ensures forall i :: 0 <= i < 15 ==>
      Fleet(draws)[i].vesselType in {"Cargo", "Tanker", "Fishing", "Passenger", "Tug"}
      && Fleet(draws)[i].status in {"Active", "Anchored", "Maintenance"}
  {
    forall i | 0 <= i < 15
      ensures Fleet(draws)[i].vesselType in {"Cargo", "Tanker", "Fishing", "Passenger", "Tug"}
      ensures Fleet(draws)[i].status in {"Active", "Anchored", "Maintenance"}
    {
      var d := draws[i];
      assert d.typeIndex in {0, 1, 2, 3, 4};
      assert d.statusIndex in {0, 1, 2};
    }
  }

  /** No two vessels share an id or a name. */
  lemma FleetIdsDistinct(draws: seq<VesselDraw>, i: nat, j: nat)
    requires ValidVesselDraws(draws)
    requires i < j < VesselCount
    ensures Fleet(draws)[i].id != Fleet(draws)[j].id
    ensures Fleet(draws)[i].name != Fleet(draws)[j].name
  {
    assert Fleet(draws)[i] == VesselRecord(i, draws[i]);
    assert Fleet(draws)[j] == VesselRecord(j, draws[j]);
    if VesselId(i) == VesselId(j) {
      PrefixedDecimalInjective("V", 1000 + i, 1000 + j);
    }
    assert VesselName(i)[7] != VesselName(j)[7];
  }

  // ---------------------------------------------------------------------
  // Environment (integer fields only)
  // ---------------------------------------------------------------------

  datatype Environment = Environment(windDirection: int, pollutionIndex: int, biodiversityScore: int)

  /** generate_environmental_data with the three `randint` draws. */
  function GenerateEnvironmentalData(windDirection: int, pollutionIndex: int, biodiversityScore: int): (e: Environment)
    requires 0 <= windDirection <= 360
    requires 20 <= pollutionIndex <= 80
    requires 60 <= biodiversityScore <= 95
    ensures 0 <= e.windDirection <= 360
    ensures 20 <= e.pollutionIndex <= 80
    ensures 60 <= e.biodiversityScore <= 95
  {
    Environment(windDirection, pollutionIndex, biodiversityScore)
  }

  // ---------------------------------------------------------------------
  // Alerts
  // ---------------------------------------------------------------------

  datatype Alert = Alert(id: string, alertType: string, severity: string, message: string, vesselId: string)

  /** The per-alert draws: three `random.choice` indices and the
      `randint(0, 14)` vessel offset. */
  datatype AlertDraw = AlertDraw(typeIndex: nat, severityIndex: nat, messageTypeIndex: nat, vesselOffset: nat)

  predicate ValidAlertDraw(d: AlertDraw)
  {
    d.typeIndex < |AlertTypes| && d.severityIndex < |Severities|
    && d.messageTypeIndex < |AlertTypes| && d.vesselOffset <= 14
  }

  function AlertRecord(i: nat, d: AlertDraw): (a: Alert)
    requires ValidAlertDraw(d)
    ensures a.alertType in AlertTypes && a.severity in Severities
  {
    Alert("A" + Decimal(1000 + i), AlertTypes[d.typeIndex], Severities[d.severityIndex],
          "Alert message for " + AlertTypes[d.messageTypeIndex], VesselId(d.vesselOffset))
  }

  ghost predicate ValidAlertDraws(count: int, draws: seq<AlertDraw>)
  {
    2 <= count <= 5 && |draws| == count
    && forall i :: 0 <= i < |draws| ==> ValidAlertDraw(draws[i])
  }

  function AlertList(draws: seq<AlertDraw>): (alerts: seq<Alert>)
    requires forall i :: 0 <= i < |draws| ==> ValidAlertDraw(draws[i])
    ensures |alerts| == |draws|
  {
    seq(|draws|, i requires 0 <= i < |draws| => AlertRecord(i, draws[i]))
  }

  /** generate_alerts: `count` is the `randint(2, 5)` loop bound, drawn once. */
  method GenerateAlerts(count: nat, draws: seq<AlertDraw>) returns (alerts: seq<Alert>)
    requires ValidAlertDraws(count, draws)
    ensures 2 <= |alerts| <= 5 && |alerts| == count
    ensures alerts == AlertList(draws)
  {
    alerts := [];
    for i := 0 to count
      invariant |alerts| == i
      invariant forall j :: 0 <= j < i ==> alerts[j] == AlertRecord(j, draws[j])
    {
      alerts := alerts + [AlertRecord(i, draws[i])];
    }
  }

  /** Alert ids run A1000, A1001, ... and every alert's vessel id is the id
      of one of the fifteen generated vessels (the one at its drawn offset),
      whatever the vessel draws were. */
  lemma AlertsReferToFleet(alertDraws: seq<AlertDraw>, vesselDraws: seq<VesselDraw>)
    requires forall i :: 0 <= i < |alertDraws| ==> ValidAlertDraw(alertDraws[i])
    requires ValidVesselDraws(vesselDraws)
    ensures forall i :: 0 <= i < |alertDraws| ==> AlertList(alertDraws)[i].id == "A" + Decimal(1000 + i)
    ensures forall i :: 0 <= i < |alertDraws| ==>
      alertDraws[i].vesselOffset < |Fleet(vesselDraws)|
      && AlertList(alertDraws)[i].vesselId == Fleet(vesselDraws)[alertDraws[i].vesselOffset].id
    ensures forall i :: 0 <= i < |alertDraws| ==>
      AlertList(alertDraws)[i].alertType in AlertTypes && AlertList(alertDraws)[i].severity in Severities
    ensures forall i :: 0 <= i < |alertDraws| ==>
      |AlertList(alertDraws)[i].message| >= 18
      && AlertList(alertDraws)[i].message[..18] == "Alert message for "
      && AlertList(alertDraws)[i].message[18..] in AlertTypes
  {
    forall i | 0 <= i < |alertDraws|
      ensures |AlertList(alertDraws)[i].message| >= 18
      ensures AlertList(alertDraws)[i].message[..18] == "Alert message for "
      ensures AlertList(alertDraws)[i].message[18..] in AlertTypes
    {
      var pre := "Alert message for ";
      var t := AlertTypes[alertDraws[i].messageTypeIndex];
      assert AlertList(alertDraws)[i].message == pre + t;
      assert (pre + t)[..|pre|] == pre && (pre + t)[|pre|..] == t;
    }
  }

  // ---------------------------------------------------------------------
  // Analytics
  // ---------------------------------------------------------------------

  /** `hourOffsets[k]` is how many hours before now label k is taken. */
  datatype Analytics = Analytics(
    vesselTraffic: seq<int>, pollutionLevels: seq<int>, hourOffsets: seq<int>,
    totalVessels: int, activeAlerts: int, avgPollution: int)

  ghost predicate AllIn(s: seq<int>, lo: int, hi: int)
  {
    forall k :: 0 <= k < |s| ==> lo <= s[k] <= hi
  }

  /** api_analytics: 24 traffic and 24 pollution `randint` draws, the hour
      offsets of `range(24, 0, -1)` and three independent scalar draws. */
  function ApiAnalytics(traffic: seq<int>, pollution: seq<int>,
                        totalVessels: int, activeAlerts: int, avgPollution: int): (a: Analytics)
    requires |traffic| == Hours && AllIn(traffic, 10, 50)
    requires |pollution| == Hours && AllIn(pollution, 20, 80)
    requires 45 <= totalVessels <= 65 && 3 <= activeAlerts <= 8 && 35 <= avgPollution <= 55
    ensures |a.vesselTraffic| == 24 && |a.pollutionLevels| == 24 && |a.hourOffsets| == 24
    ensures AllIn(a.vesselTraffic, 10, 50) && AllIn(a.pollutionLevels, 20, 80)
    ensures forall k :: 0 <= k < 24 ==> a.hourOffsets[k] == 24 - k
    ensures 45 <= a.totalVessels <= 65 && 3 <= a.activeAlerts <= 8 && 35 <= a.avgPollution <= 55
  {
    Analytics(
      seq(Hours, k requires 0 <= k < Hours => traffic[k]),
      seq(Hours, k requires 0 <= k < Hours => pollution[k]),
      seq(Hours, k => Hours - k),
      totalVessels, activeAlerts, avgPollution)
  }

  function Sum(s: seq<int>): int
  {
    if s == [] then 0 else s[0] + Sum(s[1..])
  }

  lemma {:induction false} SumAtLeast(s: seq<int>, lo: int)
    requires forall k :: 0 <= k < |s| ==> lo <= s[k]
    ensures Sum(s) >= lo * |s|
  {
    if s != [] {
      SumAtLeast(s[1..], lo);
    }
  }

  /** The scalars are drawn independently of the series: `total_vessels` is
      never the total of `vessel_traffic`, which is at least 24 * 10. */
  lemma TotalVesselsIsNotTrafficSum(traffic: seq<int>, pollution: seq<int>,
                                    totalVessels: int, activeAlerts: int, avgPollution: int)
    requires |traffic| == Hours && AllIn(traffic, 10, 50)
    requires |pollution| == Hours && AllIn(pollution, 20, 80)
    requires 45 <= totalVessels <= 65 && 3 <= activeAlerts <= 8 && 35 <= avgPollution <= 55
    ensures Sum(ApiAnalytics(traffic, pollution, totalVessels, activeAlerts, avgPollution).vesselTraffic) >= 240
    ensures ApiAnalytics(traffic, pollution, totalVessels, activeAlerts, avgPollution).totalVessels
            < Sum(ApiAnalytics(traffic, pollution, totalVessels, activeAlerts, avgPollution).vesselTraffic)
  {
    var a := ApiAnalytics(traffic, pollution, totalVessels, activeAlerts, avgPollution);
    SumAtLeast(a.vesselTraffic, 10);
  }
}
