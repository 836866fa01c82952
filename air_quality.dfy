/** The PM2.5 air-quality classifier that three dashboard components each carry a copy
    of (components/sensor-map.tsx, components/sensor-readings-table.tsx,
    components/sensor-status-card.tsx). The breakpoints are the pre-2024 US EPA AQI
    PM2.5 breakpoints of Appendix G to 40 CFR Part 58, in micrograms per cubic metre,
    with the "Very Unhealthy" and "Hazardous" categories merged into one top band. */
module AirQuality {

  /** Upper ends (inclusive) of the four lower bands, in increasing order. */
  const Breakpoints: seq<real> := [12.0, 35.4, 55.4, 150.4]

  /** Reference definition: the band of a concentration is the number of breakpoints
      it exceeds, 0 (good) to 4 (very unhealthy or worse). */
  function Band(pm25: real): (b: nat)
    ensures b <= 4
    ensures forall k :: 0 <= k < 4 ==> (k < b <==> pm25 > Breakpoints[k])
  {
    CountExceeded(Breakpoints, pm25)
  }

  /** How many of the increasing `bounds` lie strictly below `x`; they form a prefix. */
  function CountExceeded(bounds: seq<real>, x: real): (n: nat)
    requires forall i, j :: 0 <= i < j < |bounds| ==> bounds[i] < bounds[j]
    ensures n <= |bounds|
    ensures forall k :: 0 <= k < |bounds| ==> (k < n <==> x > bounds[k])
  {
    if bounds == [] || x <= bounds[0] then 0 else 1 + CountExceeded(bounds[1..], x)
  }

  lemma {:induction false} CountExceededMonotone(bounds: seq<real>, x: real, y: real)
    requires forall i, j :: 0 <= i < j < |bounds| ==> bounds[i] < bounds[j]
    requires x <= y
    ensures CountExceeded(bounds, x) <= CountExceeded(bounds, y)
  {
    if bounds != [] && x > bounds[0] {
      CountExceededMonotone(bounds[1..], x, y);
    }
  }

  /** A higher concentration never falls in a lower band. */
  lemma BandMonotone(x: real, y: real)
    requires x <= y
    ensures Band(x) <= Band(y)
  {
    CountExceededMonotone(Breakpoints, x, y);
  }

  /** The band read off the breakpoints one comparison at a time, as the components do. */
  lemma BandByComparisons(pm25: real)
    ensures Band(pm25) == if pm25 <= 12.0 then 0 else if pm25 <= 35.4 then 1
                          else if pm25 <= 55.4 then 2 else if pm25 <= 150.4 then 3 else 4
  {
    var b := Band(pm25);
    assert 0 < b <==> pm25 > Breakpoints[0];
    assert 1 < b <==> pm25 > Breakpoints[1];
    assert 2 < b <==> pm25 > Breakpoints[2];
    assert 3 < b <==> pm25 > Breakpoints[3];
  }

  /** `{ label, color }` as the map marker and the status card return it. */
  datatype Status = Status(labelText: string, color: string)

  /** `<Badge className=...>label</Badge>` as the readings table returns it. */
  datatype Badge = Badge(className: string, labelText: string)

  const MapLabels: seq<string> :=
    ["Buena", "Moderada", "Dañina para grupos sensibles", "Dañina", "Muy dañina"]
  const MapColors: seq<string> := ["#22c55e", "#eab308", "#f97316", "#ef4444", "#991b1b"]

  /** The labels of the readings table and of the status card (they share them). */
  const ShortLabels: seq<string> :=
    ["Buena", "Moderada", "Dañina (sensibles)", "Dañina", "Muy dañina"]
  const BadgeClasses: seq<string> :=
    ["bg-green-500", "bg-yellow-500", "bg-orange-500", "bg-red-500", "bg-purple-600"]

  /** `getAirQualityStatus` in components/sensor-map.tsx: the label and marker colour
      of the concentration's band. */
  function AirQualityStatus(pm25: real): (s: Status)
    ensures s == Status(MapLabels[Band(pm25)], MapColors[Band(pm25)])
  {
    BandByComparisons(pm25);
    if pm25 <= 12.0 then Status("Buena", "#22c55e")
    else if pm25 <= 35.4 then Status("Moderada", "#eab308")
    else if pm25 <= 55.4 then Status("Dañina para grupos sensibles", "#f97316")
    else if pm25 <= 150.4 then Status("Dañina", "#ef4444")
    else Status("Muy dañina", "#991b1b")
  }

  /** `getQualityBadge` in components/sensor-readings-table.tsx. */
  function QualityBadge(pm25: real): (b: Badge)
    ensures b == Badge(BadgeClasses[Band(pm25)], ShortLabels[Band(pm25)])
  {
    BandByComparisons(pm25);
    if pm25 <= 12.0 then Badge("bg-green-500", "Buena")
    else if pm25 <= 35.4 then Badge("bg-yellow-500", "Moderada")
    else if pm25 <= 55.4 then Badge("bg-orange-500", "Dañina (sensibles)")
    else if pm25 <= 150.4 then Badge("bg-red-500", "Dañina")
    else Badge("bg-purple-600", "Muy dañina")
  }

  /** `getAirQuality` in components/sensor-status-card.tsx. */
  function CardAirQuality(pm25: real): (s: Status)
    ensures s == Status(ShortLabels[Band(pm25)], BadgeClasses[Band(pm25)])
  {
    BandByComparisons(pm25);
    if pm25 <= 12.0 then Status("Buena", "bg-green-500")
    else if pm25 <= 35.4 then Status("Moderada", "bg-yellow-500")
    else if pm25 <= 55.4 then Status("Dañina (sensibles)", "bg-orange-500")
    else if pm25 <= 150.4 then Status("Dañina", "bg-red-500")
    else Status("Muy dañina", "bg-purple-600")
  }

  /** Position of a label in a list of distinct labels. */
  function LabelIndex(labels: seq<string>, labelText: string): (i: int)
    ensures -1 <= i < |labels|
    ensures 0 <= i ==> labels[i] == labelText
    ensures i == -1 ==> labelText !in labels
  {
    if labels == [] then -1
    else if labels[0] == labelText then 0
    else
      var i := LabelIndex(labels[1..], labelText);
      if i == -1 then -1 else i + 1
  }

  lemma LabelsDistinct()
    ensures forall i, j :: 0 <= i < j < 5 ==> MapLabels[i] != MapLabels[j]
    ensures forall i, j :: 0 <= i < j < 5 ==> ShortLabels[i] != ShortLabels[j]
  {
  }

  /** The map and the readings table classify every concentration into the same band,
      read back from the label each one shows. */
  lemma MapAndTableAgree(pm25: real)
    ensures LabelIndex(MapLabels, AirQualityStatus(pm25).labelText)
         == LabelIndex(ShortLabels, QualityBadge(pm25).labelText)
         == Band(pm25)
  {
    LabelsDistinct();
    var b := Band(pm25);
    var i := LabelIndex(MapLabels, MapLabels[b]);
    var j := LabelIndex(ShortLabels, ShortLabels[b]);
    assert i == b;
    assert j == b;
  }

  /** The status card shows the same label and the same colour class as the readings
      table's badge, for every concentration. */
  lemma CardMatchesTable(pm25: real)
    ensures CardAirQuality(pm25).labelText == QualityBadge(pm25).labelText
    ensures CardAirQuality(pm25).color == QualityBadge(pm25).className
  {
  }

  /** The map classifier's band never decreases as the concentration grows. */
  lemma MapStatusMonotone(x: real, y: real)
    requires x <= y
    ensures LabelIndex(MapLabels, AirQualityStatus(x).labelText)
         <= LabelIndex(MapLabels, AirQualityStatus(y).labelText)
  {
    MapAndTableAgree(x);
    MapAndTableAgree(y);
    BandMonotone(x, y);
  }
}
