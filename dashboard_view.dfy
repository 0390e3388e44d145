/** Pure display rules of the dashboard (app/page.tsx): badge colours for
    vessel status and alert severity, the pollution label, and where a vessel
    is drawn on the tracking map. */
module DashboardView {
  import DashboardData

  // ---------------------------------------------------------------------
  // Colour maps (switch statements with a default arm)
  // ---------------------------------------------------------------------

  function StatusColor(status: string): (c: string)
    ensures c in {"bg-green-500", "bg-yellow-500", "bg-red-500", "bg-gray-500"}
  {
    match status
    case "Active" => "bg-green-500"
    case "Anchored" => "bg-yellow-500"
    case "Maintenance" => "bg-red-500"
    case _ => "bg-gray-500"
  }

  function SeverityColor(severity: string): (c: string)
    ensures c in {"destructive", "default", "secondary"}
  {
    match severity
    case "High" => "destructive"
    case "Medium" => "default"
    case "Low" => "secondary"
    case _ => "default"
  }

  /** The status map is total and falls back to grey exactly for the values
      outside the generator's status list; the three known statuses get three
      different colours. */
  lemma StatusColorTable(status: string)
    ensures StatusColor(status) in {"bg-green-500", "bg-yellow-500", "bg-red-500", "bg-gray-500"}
    ensures StatusColor(status) == "bg-gray-500" <==> status !in DashboardData.Statuses
    ensures |{StatusColor("Active"), StatusColor("Anchored"), StatusColor("Maintenance")}| == 3
  {
  }

  /** The severity map shares "default" between Medium and every unknown
      value; High and Low have badges of their own. */
  lemma SeverityColorTable(severity: string)
    ensures SeverityColor(severity) in {"destructive", "default", "secondary"}
    ensures SeverityColor(severity) == "default" <==> severity != "High" && severity != "Low"
    ensures SeverityColor(severity) == "destructive" <==> severity == "High"
    ensures SeverityColor(severity) == "secondary" <==> severity == "Low"
  {
  }

  /** Every vessel the generator produces gets a real colour, never grey. */
  lemma GeneratedVesselsAreColoured(draws: seq<DashboardData.VesselDraw>, i: nat)
    requires |draws| == DashboardData.VesselCount && i < DashboardData.VesselCount
    ensures StatusColor(DashboardData.Fleet(draws)[i].status) != "bg-gray-500"
  {
    DashboardData.FleetRecords(draws);
    StatusColorTable(DashboardData.Fleet(draws)[i].status);
  }

  // ---------------------------------------------------------------------
  // Pollution label
  // ---------------------------------------------------------------------

  function PollutionLabel(index: int): (caption: string)
    ensures caption in {"Good", "Moderate", "High"}
  {
    if index < 40 then "Good" else if index < 70 then "Moderate" else "High"
  }

  function LabelRank(caption: string): nat
  {
    match caption
    case "Good" => 0
    case "Moderate" => 1
    case _ => 2
  }

  /** A higher index never gets a better label, and the two thresholds are
      where the label changes. */
  lemma PollutionLabelMonotone(a: int, b: int)
    requires a <= b
    ensures LabelRank(PollutionLabel(a)) <= LabelRank(PollutionLabel(b))
    ensures PollutionLabel(39) == "Good" && PollutionLabel(40) == "Moderate"
    ensures PollutionLabel(69) == "Moderate" && PollutionLabel(70) == "High"
  {
  }

  /** Each label is shown for some index the dashboard's generator can
      produce ([20, 79]). */
  lemma PollutionLabelsAllReachable(caption: string)
    requires caption in {"Good", "Moderate", "High"}
    ensures exists index :: 20 <= index <= 79 && PollutionLabel(index) == caption
  {
    if caption == "Good" {
      assert PollutionLabel(20) == caption;
    } else if caption == "Moderate" {
      assert PollutionLabel(40) == caption;
    } else {
      assert PollutionLabel(70) == caption;
    }
  }

  // ---------------------------------------------------------------------
  // Map grid
  // ---------------------------------------------------------------------

  /** `left: 20 + (index % 4) * 20` and `top: 20 + Math.floor(index / 4) * 25`,
      both in percent of the map. */
  function MapPosition(index: nat): (p: (int, int))
    ensures 20 <= p.0 <= 80 && 20 <= p.1
  {
    (20 + (index % 4) * 20, 20 + (index / 4) * 25)
  }

  /** The grid has four columns at 20, 40, 60 and 80 percent, and rows every
      25 percent starting at 20. */
  lemma MapPositionGrid(index: nat)
    ensures MapPosition(index).0 in {20, 40, 60, 80}
    ensures MapPosition(index).1 >= 20 && (MapPosition(index).1 - 20) % 25 == 0
  {
    var c := index % 4;
    assert c == 0 || c == 1 || c == 2 || c == 3;
  }

  /** No two vessels are drawn at the same spot. */
  lemma MapPositionInjective(i: nat, j: nat)
    requires MapPosition(i) == MapPosition(j)
    ensures i == j
  {
    assert i % 4 == j % 4;
    assert i / 4 == j / 4;
    assert i == 4 * (i / 4) + i % 4;
    assert j == 4 * (j / 4) + j % 4;
  }

  /** The twelve generated vessels fill three rows, at 20, 45 and 70 percent. */
  lemma FleetFitsOnMap(index: nat)
    requires index < DashboardData.VesselCount
    ensures MapPosition(index).1 in {20, 45, 70}
  {
    var r := index / 4;
    assert r == 0 || r == 1 || r == 2;
  }
}
