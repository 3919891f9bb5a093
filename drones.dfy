// Drone telemetry records and every string the viewer derives from them:
// the tooltip class and label, and the fields of the info panel.
module Drones {
  import opened Text

  datatype LogEntry = LogEntry(description: string, date: string, technician: string)

  /** One record of the dataset, read-only after start-up. Numbers are integral here. */
  datatype DroneRecord = DroneRecord(
    status: string,
    batteryStatus: string,
    flightHours: int,
    location: (int, int),
    currentMission: string,
    maintenanceLogs: seq<LogEntry>)

  /** The extra class of a tooltip, chosen by the drone's status. */
  function TooltipKind(status: string): (k: string)
    ensures k == "success" <==> status == "Available"
    ensures k == "info" <==> status == "In-flight"
    ensures k == "danger" <==> status != "Available" && status != "In-flight"
  {
    if status == "Available" then "success" else if status == "In-flight" then "info" else "danger"
  }

  /** The tooltip text of drone i: its 1-based number, its status and its battery status. */
  function TooltipLabel(i: nat, r: DroneRecord): string {
    "#" + NatToDecimal(i + 1) + " " + r.status + " - " + r.batteryStatus
  }

  /** A label starts with '#', and the digits after it are the drone's 1-based number. */
  lemma LabelNamesDrone(i: nat, r: DroneRecord)
    ensures TooltipLabel(i, r)[0] == '#'
    ensures DecimalValue(LeadingDigits(TooltipLabel(i, r)[1..])) == i + 1
  {
    var rest := " " + r.status + " - " + r.batteryStatus;
    assert TooltipLabel(i, r)[1..] == NatToDecimal(i + 1) + rest;
    NatToDecimalDigits(i + 1);
    LeadingDigitsOfNumber(NatToDecimal(i + 1), rest);
    DecimalRoundTrip(i + 1);
  }

  /** Different drones never get the same tooltip label, whatever their records say. */
  lemma LabelsDistinct(i: nat, j: nat, r: DroneRecord, s: DroneRecord)
    requires i != j
    ensures TooltipLabel(i, r) != TooltipLabel(j, s)
  {
    LabelNamesDrone(i, r);
    LabelNamesDrone(j, s);
  }

  /** The id field of the info panel. */
  function DroneId(i: nat): string {
    "#Drone" + NatToDecimal(i + 1)
  }

  lemma DroneIdNamesDrone(i: nat)
    ensures |DroneId(i)| > 6 && DroneId(i)[..6] == "#Drone"
    ensures AllDigits(DroneId(i)[6..]) && DecimalValue(DroneId(i)[6..]) == i + 1
  {
    assert DroneId(i)[6..] == NatToDecimal(i + 1);
    DecimalRoundTrip(i + 1);
  }

  function FlightHoursText(hours: int): string {
    IntToDecimal(hours) + " hour"
  }

  lemma FlightHoursTextRoundTrip(hours: int)
    ensures var s := FlightHoursText(hours);
      |s| > 5 && s[|s| - 5..] == " hour" && IsIntText(s[..|s| - 5]) && DecimalToInt(s[..|s| - 5]) == hours
  {
    var s := FlightHoursText(hours);
    assert s[..|s| - 5] == IntToDecimal(hours);
    assert s[|s| - 5..] == " hour";
    IntRoundTrip(hours);
  }

  /** The two coordinates of the last known location, joined by a comma and a space. */
  function LocationText(location: (int, int)): string {
    IntToDecimal(location.0) + ", " + IntToDecimal(location.1)
  }

  lemma NoCommaInInt(i: int)
    ensures forall j :: 0 <= j < |IntToDecimal(i)| ==> IntToDecimal(i)[j] != ','
  {
    var s := IntToDecimal(i);
    IntToDecimalShape(i);
    forall j | 0 <= j < |s| ensures s[j] != ',' {
      if AllDigits(s) {
        assert IsDigit(s[j]);
      } else if j > 0 {
        assert s[1..][j - 1] == s[j];
      }
    }
  }

  /** Splitting the location text at its first comma gives back both coordinates. */
  lemma LocationTextRoundTrip(location: (int, int))
    ensures var s := LocationText(location);
      var k := FirstComma(s);
      k + 2 <= |s| && s[k..k + 2] == ", " &&
      IsIntText(s[..k]) && DecimalToInt(s[..k]) == location.0 &&
      IsIntText(s[k + 2..]) && DecimalToInt(s[k + 2..]) == location.1
  {
    var a, b := IntToDecimal(location.0), IntToDecimal(location.1);
    var s := LocationText(location);
    NoCommaInInt(location.0);
    assert s == a + (", " + b);
    FirstCommaAfter(a, ", " + b);
    assert s[..|a|] == a;
    assert s[|a| + 2..] == b;
    IntRoundTrip(location.0);
    IntRoundTrip(location.1);
  }

  /** One maintenance-log entry of the panel (the source's template, without its indentation). */
  function LogEntryHtml(e: LogEntry): string {
    "<div class=\"item\"><p class=\"desc\">" + e.description
      + "</p><div class=\"subtitle\"><span class=\"date\">" + e.date
      + "</span> | <span class=\"name\">" + e.technician + "</span></div></div>"
  }

  /** The entries rendered one by one and joined with the empty string. */
  function MaintenanceHtml(logs: seq<LogEntry>): string
    decreases |logs|
  {
    if logs == [] then "" else LogEntryHtml(logs[0]) + MaintenanceHtml(logs[1..])
  }

  /** Rendering a log is rendering its parts and concatenating them, in order. */
  lemma {:induction false} MaintenanceHtmlAppend(a: seq<LogEntry>, b: seq<LogEntry>)
    ensures MaintenanceHtml(a + b) == MaintenanceHtml(a) + MaintenanceHtml(b)
    decreases |a|
  {
    if a != [] {
      assert (a + b)[0] == a[0];
      assert (a + b)[1..] == a[1..] + b;
      MaintenanceHtmlAppend(a[1..], b);
      var e, ra, rb := LogEntryHtml(a[0]), MaintenanceHtml(a[1..]), MaintenanceHtml(b);
      assert MaintenanceHtml(a + b) == e + (ra + rb);
      assert e + (ra + rb) == (e + ra) + rb;
    } else {
      assert a + b == b;
    }
  }

  /** The info panel: blank until a drone is first focused, then holding the fields written
      from one drone's record. Each field's text is a function of that drone and record. */
  datatype Panel = Blank | Showing(index: nat, record: DroneRecord) {
    function Status(): string {
      if Blank? then "" else record.status
    }

    function FlightHours(): string {
      if Blank? then "" else FlightHoursText(record.flightHours)
    }

    function BatteryStatus(): string {
      if Blank? then "" else record.batteryStatus
    }

    function Location(): string {
      if Blank? then "" else LocationText(record.location)
    }

    function Mission(): string {
      if Blank? then "" else record.currentMission
    }

    function Id(): string {
      if Blank? then "" else DroneId(index)
    }

    function MaintenanceLogs(): string {
      if Blank? then "" else MaintenanceHtml(record.maintenanceLogs)
    }
  }

  /** The id field names the drone: "#Drone" followed by its 1-based number. */
  lemma PanelIdNamesDrone(i: nat, r: DroneRecord)
    ensures var id := Showing(i, r).Id();
      |id| > 6 && id[..6] == "#Drone" && AllDigits(id[6..]) && DecimalValue(id[6..]) == i + 1
  {
    assert Showing(i, r).Id() == DroneId(i);
    DroneIdNamesDrone(i);
  }

  /** The flight-hours field reads back to the record's hours, followed by " hour". */
  lemma PanelFlightHours(i: nat, r: DroneRecord)
    ensures var h := Showing(i, r).FlightHours();
      |h| > 5 && h[|h| - 5..] == " hour" && IsIntText(h[..|h| - 5]) && DecimalToInt(h[..|h| - 5]) == r.flightHours
  {
    assert Showing(i, r).FlightHours() == FlightHoursText(r.flightHours);
    FlightHoursTextRoundTrip(r.flightHours);
  }

  /** The location field splits at its first comma back into both coordinates. */
  lemma PanelLocation(i: nat, r: DroneRecord)
    ensures var loc := Showing(i, r).Location(); var k := FirstComma(loc);
      k + 2 <= |loc| && loc[k..k + 2] == ", " &&
      IsIntText(loc[..k]) && DecimalToInt(loc[..k]) == r.location.0 &&
      IsIntText(loc[k + 2..]) && DecimalToInt(loc[k + 2..]) == r.location.1
  {
    assert Showing(i, r).Location() == LocationText(r.location);
    LocationTextRoundTrip(r.location);
  }
}
