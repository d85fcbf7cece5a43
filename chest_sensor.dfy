/** The chest node (`micropython_chest_sensor.py`): the NMEA 0183 parser
    `SimpleGPS` that keeps the latest GPS fix, and the JSON payload the node
    posts. */
module ChestSensor {
  import opened JsonRecords
  import opened Text
  import Mpu6050

  /** Python's `float()` and `int()` applied to one text field; `None` stands
      for the `ValueError` they raise on malformed text. */
  datatype NumberParsers = NumberParsers(parseFloat: string -> Option<real>, parseInt: string -> Option<int>)

  /** The eight fields of a `SimpleGPS` object. */
  datatype GpsFix = GpsFix(
    latitude: Option<real>,
    longitude: Option<real>,
    altitude: Option<real>,
    speed: Option<real>,
    heading: Option<real>,
    satellites: int,
    hdop: Option<real>,
    fixQuality: int)

  /** The fields as `__init__` sets them. */
  const Initial: GpsFix := GpsFix(None, None, None, None, None, 0, None, 0)

  datatype Field = Latitude | Longitude | Altitude | Speed | Heading | Satellites | Hdop | FixQuality

  /** `t` agrees with `s` on every field outside `changed`. */
  predicate SameExcept(s: GpsFix, t: GpsFix, changed: set<Field>)
  {
    && (Latitude !in changed ==> t.latitude == s.latitude)
    && (Longitude !in changed ==> t.longitude == s.longitude)
    && (Altitude !in changed ==> t.altitude == s.altitude)
    && (Speed !in changed ==> t.speed == s.speed)
    && (Heading !in changed ==> t.heading == s.heading)
    && (Satellites !in changed ==> t.satellites == s.satellites)
    && (Hdop !in changed ==> t.hdop == s.hdop)
    && (FixQuality !in changed ==> t.fixQuality == s.fixQuality)
  }

  /** `is_valid`: a fix is reported and both coordinates are known. */
  predicate IsValid(s: GpsFix)
  {
    s.fixQuality > 0 && s.latitude.Some? && s.longitude.Some?
  }

  /** Where a run of assignments inside `try: ... except: pass` ends:
      `Raised` when a conversion raised, with the state the assignments
      before it left behind (nothing is rolled back). */
  datatype Attempt = Completed(state: GpsFix) | Raised(state: GpsFix) {
    predicate IsFailure() { Raised? }
    function PropagateFailure(): Attempt requires Raised? { this }
    function Extract(): GpsFix requires Completed? { state }
  }

  /** One guarded assignment of a parse method, `if parts[i]: self.f = conv(parts[i])`,
      with the indices of the comma-separated parts it reads. */
  datatype Assignment =
    | SetLatitude(value: nat, hemisphere: nat)
    | SetLongitude(value: nat, hemisphere: nat)
    | SetFixQuality(index: nat)
    | SetSatellites(index: nat)
    | SetHdop(index: nat)
    | SetAltitude(index: nat)
    | SetSpeedFromKnots(index: nat)
    | SetSpeed(index: nat)
    | SetHeading(index: nat)

  /** The field an assignment writes. */
  function Target(a: Assignment): Field
  {
    match a
    case SetLatitude(_, _) => Latitude
    case SetLongitude(_, _) => Longitude
    case SetFixQuality(_) => FixQuality
    case SetSatellites(_) => Satellites
    case SetHdop(_) => Hdop
    case SetAltitude(_) => Altitude
    case SetSpeedFromKnots(_) => Speed
    case SetSpeed(_) => Speed
    case SetHeading(_) => Heading
  }

  /** The parts an assignment reads exist in a sentence of `n` parts. */
  predicate Fits(a: Assignment, n: nat)
  {
    if a.SetLatitude? || a.SetLongitude? then a.value < n && a.hemisphere < n else a.index < n
  }

  predicate AllFit(assignments: seq<Assignment>, n: nat)
  {
    forall i :: 0 <= i < |assignments| ==> Fits(assignments[i], n)
  }

  /** The assignment's guard is false: one of the parts it tests is empty. */
  predicate Skips(a: Assignment, parts: seq<string>)
    requires Fits(a, |parts|)
  {
    if a.SetLatitude? || a.SetLongitude? then parts[a.value] == [] || parts[a.hemisphere] == []
    else parts[a.index] == []
  }

  /** Python `int(x)`: truncation toward zero. */
  function Trunc(x: real): (r: int)
    ensures 0.0 <= x ==> 0 <= r && r as real <= x < r as real + 1.0
    ensures x < 0.0 ==> r <= 0 && r as real - 1.0 < x <= r as real
  {
    if x >= 0.0 then x.Floor else -((-x).Floor)
  }

  /** Python `x % 100` on a float: the remainder has the sign of 100. */
  function Mod100(x: real): (r: real)
    ensures 0.0 <= r < 100.0
    ensures var q := (x - r) / 100.0; q == q.Floor as real
  {
    x - 100.0 * ((x / 100.0).Floor as real)
  }

  /** `ddmm.mmmm` to decimal degrees: `int(v / 100) + (v % 100) / 60.0`. */
  function NmeaToDegrees(v: real): (degrees: real)
    ensures var whole := Trunc(v / 100.0) as real;
            whole <= degrees < whole + 100.0 / 60.0
  {
    Trunc(v / 100.0) as real + Mod100(v) / 60.0
  }

  function Signed(x: real, negative: bool): real
  {
    if negative then -x else x
  }

  /** One guarded assignment. A conversion that raises leaves the state as it was. */
  function Apply(a: Assignment, s: GpsFix, parts: seq<string>, p: NumberParsers): (r: Attempt)
    requires Fits(a, |parts|)
    ensures SameExcept(s, r.state, {Target(a)})
    ensures Skips(a, parts) ==> r == Completed(s)
    ensures r.Raised? ==> r.state == s
  {
    if Skips(a, parts) then Completed(s)
    else match a
      case SetLatitude(v, h) =>
        (match p.parseFloat(parts[v])
         case None => Raised(s)
         case Some(x) => Completed(s.(latitude := Some(Signed(NmeaToDegrees(x), parts[h] == "S")))))
      case SetLongitude(v, h) =>
        (match p.parseFloat(parts[v])
         case None => Raised(s)
         case Some(x) => Completed(s.(longitude := Some(Signed(NmeaToDegrees(x), parts[h] == "W")))))
      case SetFixQuality(i) =>
        (match p.parseInt(parts[i]) case None => Raised(s) case Some(q) => Completed(s.(fixQuality := q)))
      case SetSatellites(i) =>
        (match p.parseInt(parts[i]) case None => Raised(s) case Some(n) => Completed(s.(satellites := n)))
      case SetHdop(i) =>
        (match p.parseFloat(parts[i]) case None => Raised(s) case Some(x) => Completed(s.(hdop := Some(x))))
      case SetAltitude(i) =>
        (match p.parseFloat(parts[i]) case None => Raised(s) case Some(x) => Completed(s.(altitude := Some(x))))
      case SetSpeedFromKnots(i) =>
        (match p.parseFloat(parts[i]) case None => Raised(s) case Some(x) => Completed(s.(speed := Some(x * 1.852))))
      case SetSpeed(i) =>
        (match p.parseFloat(parts[i]) case None => Raised(s) case Some(x) => Completed(s.(speed := Some(x))))
      case SetHeading(i) =>
        (match p.parseFloat(parts[i]) case None => Raised(s) case Some(x) => Completed(s.(heading := Some(x))))
  }

  /** The first `n` assignments run in order; the first one that raises ends the run. */
  function RunFirst(assignments: seq<Assignment>, n: nat, s: GpsFix, parts: seq<string>, p: NumberParsers): Attempt
    requires n <= |assignments| && AllFit(assignments, |parts|)
  {
    if n == 0 then Completed(s)
    else
      var t :- RunFirst(assignments, n - 1, s, parts, p);
      Apply(assignments[n - 1], t, parts, p)
  }

  /** The guarded assignments of `parse_gga`, `parse_rmc` and `parse_vtg`, in source order. */
  const GgaAssignments: seq<Assignment> :=
    [SetLatitude(2, 3), SetLongitude(4, 5), SetFixQuality(6), SetSatellites(7), SetHdop(8), SetAltitude(9)]
  const RmcAssignments: seq<Assignment> := [SetSpeedFromKnots(7), SetHeading(8)]
  const VtgAssignments: seq<Assignment> := [SetSpeed(7), SetHeading(1)]

  /** A parse method: split on commas; with at least `minParts` parts run all
      its assignments, whatever raises is swallowed; with fewer do nothing. */
  function RunSentence(s: GpsFix, sentence: string, minParts: nat, assignments: seq<Assignment>, p: NumberParsers): GpsFix
    requires AllFit(assignments, minParts)
  {
    var parts := Split(sentence, ',');
    if |parts| >= minParts then
      assert AllFit(assignments, |parts|);
      RunFirst(assignments, |assignments|, s, parts, p).state
    else s
  }

  /** `parse_gga`: it writes position, fix quality, satellites, HDOP and
      altitude, and never speed or heading. */
  function AfterGga(s: GpsFix, sentence: string, p: NumberParsers): (t: GpsFix)
    ensures SameExcept(s, t, {Latitude, Longitude, FixQuality, Satellites, Hdop, Altitude})
  {
    GgaTargets();
    SentenceChangesOnlyTargets(s, sentence, 15, GgaAssignments, p, {Latitude, Longitude, FixQuality, Satellites, Hdop, Altitude});
    RunSentence(s, sentence, 15, GgaAssignments, p)
  }

  /** `parse_rmc`: it writes at most speed and heading. */
  function AfterRmc(s: GpsFix, sentence: string, p: NumberParsers): (t: GpsFix)
    ensures SameExcept(s, t, {Speed, Heading})
  {
    SentenceChangesOnlyTargets(s, sentence, 10, RmcAssignments, p, {Speed, Heading});
    RunSentence(s, sentence, 10, RmcAssignments, p)
  }

  /** `parse_vtg`: it writes at most speed and heading. */
  function AfterVtg(s: GpsFix, sentence: string, p: NumberParsers): (t: GpsFix)
    ensures SameExcept(s, t, {Speed, Heading})
  {
    SentenceChangesOnlyTargets(s, sentence, 10, VtgAssignments, p, {Speed, Heading});
    RunSentence(s, sentence, 10, VtgAssignments, p)
  }

  predicate IsGga(sentence: string) { StartsWith(sentence, "$GPGGA") || StartsWith(sentence, "$GNGGA") }
  predicate IsRmc(sentence: string) { StartsWith(sentence, "$GPRMC") || StartsWith(sentence, "$GNRMC") }
  predicate IsVtg(sentence: string) { StartsWith(sentence, "$GPVTG") || StartsWith(sentence, "$GNVTG") }

  /** `parse_nmea`: dispatch on the sentence's talker and type prefix. Only
      GGA, RMC and VTG sentences (GP or GN talker) change anything, and only
      with enough parts for their kind: 15 for GGA, 10 for the others. */
  function AfterNmea(s: GpsFix, sentence: string, p: NumberParsers): (t: GpsFix)
    ensures t != s ==> || (IsGga(sentence) && |Split(sentence, ',')| >= 15)
                       || ((IsRmc(sentence) || IsVtg(sentence)) && |Split(sentence, ',')| >= 10)
  {
    if IsGga(sentence) then AfterGga(s, sentence, p)
    else if IsRmc(sentence) then AfterRmc(s, sentence, p)
    else if IsVtg(sentence) then AfterVtg(s, sentence, p)
    else s
  }

  /** `SimpleGPS`: the eight fields, updated in place by one method per sentence kind. */
  class SimpleGps {
    var latitude: Option<real>
    var longitude: Option<real>
    var altitude: Option<real>
    var speed: Option<real>
    var heading: Option<real>
    var satellites: int
    var hdop: Option<real>
    var fixQuality: int

    function Fix(): GpsFix
      reads this
    {
      GpsFix(latitude, longitude, altitude, speed, heading, satellites, hdop, fixQuality)
    }

    constructor ()
      ensures Fix() == Initial
    {
      latitude, longitude, altitude, speed, heading := None, None, None, None, None;
      satellites, hdop, fixQuality := 0, None, 0;
    }

    function IsValidFix(): (valid: bool)
      reads this
      ensures valid == IsValid(Fix())
    {
      fixQuality > 0 && latitude != None && longitude != None
    }

    method ParseNmea(sentence: string, p: NumberParsers)
      modifies this
      ensures Fix() == AfterNmea(old(Fix()), sentence, p)
    {
      if StartsWith(sentence, "$GPGGA") || StartsWith(sentence, "$GNGGA") {
        ParseGga(sentence, p);
      } else if StartsWith(sentence, "$GPRMC") || StartsWith(sentence, "$GNRMC") {
        ParseRmc(sentence, p);
      } else if StartsWith(sentence, "$GPVTG") || StartsWith(sentence, "$GNVTG") {
        ParseVtg(sentence, p);
      }
    }

    /** One guarded assignment of a parse method: `raised` when the
        conversion raised, in which case nothing was stored. */
    method Assign(a: Assignment, parts: seq<string>, p: NumberParsers) returns (raised: bool)
      requires Fits(a, |parts|)
      modifies this
      ensures Apply(a, old(Fix()), parts, p) == if raised then Raised(Fix()) else Completed(Fix())
    {
      raised := false;
      match a
      case SetLatitude(v, h) =>
        if parts[v] != "" && parts[h] != "" {
          var lat := p.parseFloat(parts[v]);
          if lat.None? { return true; }
          latitude := Some(NmeaToDegrees(lat.value));
          if parts[h] == "S" {
            latitude := Some(-latitude.value);
          }
        }
      case SetLongitude(v, h) =>
        if parts[v] != "" && parts[h] != "" {
          var lon := p.parseFloat(parts[v]);
          if lon.None? { return true; }
          longitude := Some(NmeaToDegrees(lon.value));
          if parts[h] == "W" {
            longitude := Some(-longitude.value);
          }
        }
      case SetFixQuality(i) =>
        if parts[i] != "" {
          var q := p.parseInt(parts[i]);
          if q.None? { return true; }
          fixQuality := q.value;
        }
      case SetSatellites(i) =>
        if parts[i] != "" {
          var n := p.parseInt(parts[i]);
          if n.None? { return true; }
          satellites := n.value;
        }
      case SetHdop(i) =>
        if parts[i] != "" {
          var x := p.parseFloat(parts[i]);
          if x.None? { return true; }
          hdop := Some(x.value);
        }
      case SetAltitude(i) =>
        if parts[i] != "" {
          var x := p.parseFloat(parts[i]);
          if x.None? { return true; }
          altitude := Some(x.value);
        }
      case SetSpeedFromKnots(i) =>
        if parts[i] != "" {
          var knots := p.parseFloat(parts[i]);
          if knots.None? { return true; }
          speed := Some(knots.value * 1.852);
        }
      case SetSpeed(i) =>
        if parts[i] != "" {
          var kmh := p.parseFloat(parts[i]);
          if kmh.None? { return true; }
          speed := Some(kmh.value);
        }
      case SetHeading(i) =>
        if parts[i] != "" {
          var course := p.parseFloat(parts[i]);
          if course.None? { return true; }
          heading := Some(course.value);
        }
    }

    /** The `k`-th guarded assignment of a sentence, run after the first `k`
        completed: when it raises, the sentence is over in the state it left. */
    method RunStep(assignments: seq<Assignment>, k: nat, ghost s0: GpsFix, parts: seq<string>, p: NumberParsers)
      returns (raised: bool)
      requires k < |assignments| && AllFit(assignments, |parts|)
      requires RunFirst(assignments, k, s0, parts, p) == Completed(Fix())
      modifies this
      ensures raised ==> RunFirst(assignments, |assignments|, s0, parts, p) == Raised(Fix())
      ensures !raised ==> RunFirst(assignments, k + 1, s0, parts, p) == Completed(Fix())
    {
      Advance(assignments, k, s0, parts, p);
      raised := Assign(assignments[k], parts, p);
      if raised {
        Abort(assignments, k, s0, parts, p);
      }
    }

    method ParseGga(sentence: string, p: NumberParsers)
      modifies this
      ensures Fix() == AfterGga(old(Fix()), sentence, p)
    {
      var parts := Split(sentence, ',');
      if |parts| >= 15 {
        ghost var s0 := Fix();
        var raised := RunStep(GgaAssignments, 0, s0, parts, p);  // latitude
        if raised { return; }
        raised := RunStep(GgaAssignments, 1, s0, parts, p);  // longitude
        if raised { return; }
        raised := RunStep(GgaAssignments, 2, s0, parts, p);  // fix quality
        if raised { return; }
        raised := RunStep(GgaAssignments, 3, s0, parts, p);  // satellites
        if raised { return; }
        raised := RunStep(GgaAssignments, 4, s0, parts, p);  // HDOP
        if raised { return; }
        raised := RunStep(GgaAssignments, 5, s0, parts, p);  // altitude
      }
    }

    method ParseRmc(sentence: string, p: NumberParsers)
      modifies this
      ensures Fix() == AfterRmc(old(Fix()), sentence, p)
    {
      var parts := Split(sentence, ',');
      if |parts| >= 10 {
        ghost var s0 := Fix();
        var raised := RunStep(RmcAssignments, 0, s0, parts, p);  // speed, knots to km/h
        if raised { return; }
        raised := RunStep(RmcAssignments, 1, s0, parts, p);  // course
      }
    }

    method ParseVtg(sentence: string, p: NumberParsers)
      modifies this
      ensures Fix() == AfterVtg(old(Fix()), sentence, p)
    {
      var parts := Split(sentence, ',');
      if |parts| >= 10 {
        ghost var s0 := Fix();
        var raised := RunStep(VtgAssignments, 0, s0, parts, p);  // speed, already km/h
        if raised { return; }
        raised := RunStep(VtgAssignments, 1, s0, parts, p);  // course
      }
    }
  }

  /** Once an assignment has raised, the later ones never run: the run ends
      in the state the raise left. */
  lemma {:induction false} RaisedStaysRaised(assignments: seq<Assignment>, n: nat, m: nat, s: GpsFix, parts: seq<string>, p: NumberParsers)
    requires n <= m <= |assignments| && AllFit(assignments, |parts|)
    requires RunFirst(assignments, n, s, parts, p).Raised?
    ensures RunFirst(assignments, m, s, parts, p) == RunFirst(assignments, n, s, parts, p)
    decreases m - n
  {
    if m > n {
      RaisedSkipsNext(assignments, n, s, parts, p);
      RaisedStaysRaised(assignments, n + 1, m, s, parts, p);
    }
  }

  /** After a raise, the next assignment does not run. */
  lemma RaisedSkipsNext(assignments: seq<Assignment>, k: nat, s: GpsFix, parts: seq<string>, p: NumberParsers)
    requires k < |assignments| && AllFit(assignments, |parts|)
    requires RunFirst(assignments, k, s, parts, p).Raised?
    ensures RunFirst(assignments, k + 1, s, parts, p) == RunFirst(assignments, k, s, parts, p)
  {
  }

  /** Running one more assignment after a run that completed. */
  lemma Advance(assignments: seq<Assignment>, k: nat, s: GpsFix, parts: seq<string>, p: NumberParsers)
    requires k < |assignments| && AllFit(assignments, |parts|)
    requires RunFirst(assignments, k, s, parts, p).Completed?
    ensures RunFirst(assignments, k + 1, s, parts, p)
            == Apply(assignments[k], RunFirst(assignments, k, s, parts, p).state, parts, p)
  {
  }

  /** The run ends at the first assignment that raises, in the state the
      assignments before it left: nothing is rolled back and nothing after it runs. */
  lemma Abort(assignments: seq<Assignment>, k: nat, s: GpsFix, parts: seq<string>, p: NumberParsers)
    requires k < |assignments| && AllFit(assignments, |parts|)
    requires RunFirst(assignments, k, s, parts, p).Completed?
    requires Apply(assignments[k], RunFirst(assignments, k, s, parts, p).state, parts, p).Raised?
    ensures RunFirst(assignments, |assignments|, s, parts, p) == Raised(RunFirst(assignments, k, s, parts, p).state)
  {
    RaisedStaysRaised(assignments, k + 1, |assignments|, s, parts, p);
  }

  /** The fields written by the assignments `k` to `n - 1` whose guards hold. */
  function Active(assignments: seq<Assignment>, parts: seq<string>, k: nat, n: nat): set<Field>
    requires k <= n <= |assignments| && AllFit(assignments, |parts|)
  {
    set i | k <= i < n && !Skips(assignments[i], parts) :: Target(assignments[i])
  }

  /** Between the `k`-th and the `n`-th assignment, only fields of assignments
      whose guard held can change. */
  lemma {:induction false} RunChangesOnlyActiveFields(assignments: seq<Assignment>, k: nat, n: nat, s: GpsFix, parts: seq<string>, p: NumberParsers)
    requires k <= n <= |assignments| && AllFit(assignments, |parts|)
    ensures SameExcept(RunFirst(assignments, k, s, parts, p).state,
                       RunFirst(assignments, n, s, parts, p).state,
                       Active(assignments, parts, k, n))
  {
    if n > k {
      RunChangesOnlyActiveFields(assignments, k, n - 1, s, parts, p);
      StepChangesOnlyItsTarget(assignments, n - 1, s, parts, p);
      var a := assignments[n - 1];
      var before, after := Active(assignments, parts, k, n - 1), Active(assignments, parts, k, n);
      assert before <= after;
      var step: set<Field> := if Skips(a, parts) then {} else {Target(a)};
      assert step <= after by {
        if !Skips(a, parts) {
          assert Target(a) in after;
        }
      }
      SameExceptCompose(RunFirst(assignments, k, s, parts, p).state, RunFirst(assignments, n - 1, s, parts, p).state,
                        RunFirst(assignments, n, s, parts, p).state, before, step, after);
    }
  }

  /** One more assignment changes at most its own field, and nothing when its guard fails. */
  lemma StepChangesOnlyItsTarget(assignments: seq<Assignment>, k: nat, s: GpsFix, parts: seq<string>, p: NumberParsers)
    requires k < |assignments| && AllFit(assignments, |parts|)
    ensures SameExcept(RunFirst(assignments, k, s, parts, p).state, RunFirst(assignments, k + 1, s, parts, p).state,
                       if Skips(assignments[k], parts) then {} else {Target(assignments[k])})
  {
  }

  /** Changes compose: what two steps leave alone, the pair leaves alone. */
  lemma SameExceptCompose(s: GpsFix, t: GpsFix, u: GpsFix, first: set<Field>, second: set<Field>, both: set<Field>)
    requires SameExcept(s, t, first) && SameExcept(t, u, second) && first <= both && second <= both
    ensures SameExcept(s, u, both)
  {
  }

  /** A GGA sentence whose conversion at assignment `k` raises ends in the
      state the first `k` assignments produced: those keep their new values,
      and every field outside them keeps its old one. */
  lemma GgaAbortKeepsEarlierAssignments(s: GpsFix, sentence: string, p: NumberParsers, k: nat)
    requires var parts := Split(sentence, ',');
             && |parts| >= 15 && k < 6
             && RunFirst(GgaAssignments, k, s, parts, p).Completed?
             && Apply(GgaAssignments[k], RunFirst(GgaAssignments, k, s, parts, p).state, parts, p).Raised?
    ensures var parts := Split(sentence, ',');
            && AfterGga(s, sentence, p) == RunFirst(GgaAssignments, k, s, parts, p).state
            && SameExcept(s, AfterGga(s, sentence, p), Active(GgaAssignments, parts, 0, k))
  {
    var parts := Split(sentence, ',');
    Abort(GgaAssignments, k, s, parts, p);
    RunChangesOnlyActiveFields(GgaAssignments, 0, k, s, parts, p);
  }

  /** With enough parts, the GGA sentence runs all six of its assignments. */
  lemma AfterGgaRunsAll(s: GpsFix, sentence: string, p: NumberParsers)
    requires |Split(sentence, ',')| >= 15
    ensures AllFit(GgaAssignments, |Split(sentence, ',')|)
    ensures AfterGga(s, sentence, p) == RunFirst(GgaAssignments, 6, s, Split(sentence, ','), p).state
  {
  }

  /** Which fields the GGA assignments after a given one can write. */
  lemma GgaLaterAssignments(parts: seq<string>)
    requires |parts| >= 15
    ensures AllFit(GgaAssignments, |parts|)
    ensures Latitude !in Active(GgaAssignments, parts, 1, 6)
    ensures Longitude !in Active(GgaAssignments, parts, 2, 6)
    ensures Speed !in Active(GgaAssignments, parts, 0, 6) && Heading !in Active(GgaAssignments, parts, 0, 6)
  {
    GgaTargets();
  }

  /** Latitude: `trunc(v / 100) + (v mod 100) / 60`, negated exactly for 'S';
      kept when the value or the hemisphere field is empty or malformed. */
  lemma GgaLatitude(s: GpsFix, sentence: string, p: NumberParsers)
    requires |Split(sentence, ',')| >= 15
    ensures var parts := Split(sentence, ',');
            AfterGga(s, sentence, p).latitude
            == if parts[2] == [] || parts[3] == [] || p.parseFloat(parts[2]).None? then s.latitude
               else Some(Signed(NmeaToDegrees(p.parseFloat(parts[2]).value), parts[3] == "S"))
  {
    var parts := Split(sentence, ',');
    AfterGgaRunsAll(s, sentence, p);
    Advance(GgaAssignments, 0, s, parts, p);
    if RunFirst(GgaAssignments, 1, s, parts, p).Raised? {
      RaisedStaysRaised(GgaAssignments, 1, 6, s, parts, p);
    } else {
      RunChangesOnlyActiveFields(GgaAssignments, 1, 6, s, parts, p);
      GgaLaterAssignments(parts);
    }
  }

  /** Longitude: the same conversion, negated exactly for 'W'; it is reached
      only when the latitude conversion did not raise. */
  lemma GgaLongitude(s: GpsFix, sentence: string, p: NumberParsers)
    requires |Split(sentence, ',')| >= 15
    ensures var parts := Split(sentence, ',');
            var latitudeRaised := parts[2] != [] && parts[3] != [] && p.parseFloat(parts[2]).None?;
            AfterGga(s, sentence, p).longitude
            == if latitudeRaised || parts[4] == [] || parts[5] == [] || p.parseFloat(parts[4]).None? then s.longitude
               else Some(Signed(NmeaToDegrees(p.parseFloat(parts[4]).value), parts[5] == "W"))
  {
    var parts := Split(sentence, ',');
    AfterGgaRunsAll(s, sentence, p);
    Advance(GgaAssignments, 0, s, parts, p);
    var first := RunFirst(GgaAssignments, 1, s, parts, p);
    if first.Raised? {
      RaisedStaysRaised(GgaAssignments, 1, 6, s, parts, p);
    } else {
      assert first.state.longitude == s.longitude;
      Advance(GgaAssignments, 1, s, parts, p);
      if RunFirst(GgaAssignments, 2, s, parts, p).Raised? {
        RaisedStaysRaised(GgaAssignments, 2, 6, s, parts, p);
      } else {
        RunChangesOnlyActiveFields(GgaAssignments, 2, 6, s, parts, p);
        GgaLaterAssignments(parts);
      }
    }
  }

  /** Fix quality, satellites, HDOP and altitude keep their previous values
      when their own field is empty. */
  lemma GgaEmptyFieldsKeepValues(s: GpsFix, sentence: string, p: NumberParsers)
    requires |Split(sentence, ',')| >= 15
    ensures var parts := Split(sentence, ',');
            var t := AfterGga(s, sentence, p);
            && (parts[6] == [] ==> t.fixQuality == s.fixQuality)
            && (parts[7] == [] ==> t.satellites == s.satellites)
            && (parts[8] == [] ==> t.hdop == s.hdop)
            && (parts[9] == [] ==> t.altitude == s.altitude)
  {
    var parts := Split(sentence, ',');
    AfterGgaRunsAll(s, sentence, p);
    RunChangesOnlyActiveFields(GgaAssignments, 0, 6, s, parts, p);
    GgaSkippedFields(parts);
  }

  /** Where assignment `k` of a run ends up: unless an earlier one raised,
      its outcome survives to the end of the run in every field no later
      assignment writes; the earlier ones changed only their own fields. */
  lemma StepOutcomeSurvives(assignments: seq<Assignment>, k: nat, s: GpsFix, parts: seq<string>, p: NumberParsers,
                            before: set<Field>, later: set<Field>)
    requires k < |assignments| && AllFit(assignments, |parts|)
    requires forall i :: 0 <= i < k ==> Target(assignments[i]) in before
    requires forall i :: k < i < |assignments| ==> Target(assignments[i]) in later
    ensures var reached := RunFirst(assignments, k, s, parts, p);
            && SameExcept(s, reached.state, before)
            && SameExcept(if reached.Raised? then reached.state else Apply(assignments[k], reached.state, parts, p).state,
                          RunFirst(assignments, |assignments|, s, parts, p).state, later)
  {
    RunChangesOnlyActiveFields(assignments, 0, k, s, parts, p);
    ActiveFieldsAreTargets(assignments, parts, 0, k, before);
    if RunFirst(assignments, k, s, parts, p).Raised? {
      RaisedStaysRaised(assignments, k, |assignments|, s, parts, p);
    } else {
      Advance(assignments, k, s, parts, p);
      RunChangesOnlyActiveFields(assignments, k + 1, |assignments|, s, parts, p);
      ActiveFieldsAreTargets(assignments, parts, k + 1, |assignments|, later);
    }
  }

  /** Fix quality: `int(parts[6])` is stored when the coordinates did not
      raise before it and the field is non-empty and converts; otherwise the
      old value stays. */
  lemma GgaFixQuality(s: GpsFix, sentence: string, p: NumberParsers)
    requires |Split(sentence, ',')| >= 15
    ensures var parts := Split(sentence, ',');
            AfterGga(s, sentence, p).fixQuality
            == if RunFirst(GgaAssignments, 2, s, parts, p).Raised? || parts[6] == [] || p.parseInt(parts[6]).None?
               then s.fixQuality
               else p.parseInt(parts[6]).value
  {
    var parts := Split(sentence, ',');
    AfterGgaRunsAll(s, sentence, p);
    GgaTargets();
    StepOutcomeSurvives(GgaAssignments, 2, s, parts, p, {Latitude, Longitude}, {Satellites, Hdop, Altitude});
  }

  /** Satellites: `int(parts[7])`, reached when nothing before it raised. */
  lemma GgaSatellites(s: GpsFix, sentence: string, p: NumberParsers)
    requires |Split(sentence, ',')| >= 15
    ensures var parts := Split(sentence, ',');
            AfterGga(s, sentence, p).satellites
            == if RunFirst(GgaAssignments, 3, s, parts, p).Raised? || parts[7] == [] || p.parseInt(parts[7]).None?
               then s.satellites
               else p.parseInt(parts[7]).value
  {
    var parts := Split(sentence, ',');
    AfterGgaRunsAll(s, sentence, p);
    GgaTargets();
    StepOutcomeSurvives(GgaAssignments, 3, s, parts, p, {Latitude, Longitude, FixQuality}, {Hdop, Altitude});
  }

  /** HDOP: `float(parts[8])`, reached when nothing before it raised. */
  lemma GgaHdop(s: GpsFix, sentence: string, p: NumberParsers)
    requires |Split(sentence, ',')| >= 15
    ensures var parts := Split(sentence, ',');
            AfterGga(s, sentence, p).hdop
            == if RunFirst(GgaAssignments, 4, s, parts, p).Raised? || parts[8] == [] || p.parseFloat(parts[8]).None?
               then s.hdop
               else Some(p.parseFloat(parts[8]).value)
  {
    var parts := Split(sentence, ',');
    AfterGgaRunsAll(s, sentence, p);
    GgaTargets();
    StepOutcomeSurvives(GgaAssignments, 4, s, parts, p, {Latitude, Longitude, FixQuality, Satellites}, {Altitude});
  }

  /** Altitude: `float(parts[9])`, the last assignment, reached when nothing
      before it raised. */
  lemma GgaAltitude(s: GpsFix, sentence: string, p: NumberParsers)
    requires |Split(sentence, ',')| >= 15
    ensures var parts := Split(sentence, ',');
            AfterGga(s, sentence, p).altitude
            == if RunFirst(GgaAssignments, 5, s, parts, p).Raised? || parts[9] == [] || p.parseFloat(parts[9]).None?
               then s.altitude
               else Some(p.parseFloat(parts[9]).value)
  {
    var parts := Split(sentence, ',');
    AfterGgaRunsAll(s, sentence, p);
    GgaTargets();
    StepOutcomeSurvives(GgaAssignments, 5, s, parts, p, {Latitude, Longitude, FixQuality, Satellites, Hdop}, {});
  }

  /** A GGA sentence whose coordinates and fix quality all convert, with a
      positive fix quality, leaves a valid fix whatever the state before it. */
  lemma GgaCanMakeFixValid(s: GpsFix, sentence: string, p: NumberParsers)
    requires |Split(sentence, ',')| >= 15
    requires var parts := Split(sentence, ',');
             && parts[2] != [] && parts[3] != [] && p.parseFloat(parts[2]).Some?
             && parts[4] != [] && parts[5] != [] && p.parseFloat(parts[4]).Some?
             && parts[6] != [] && p.parseInt(parts[6]).Some? && p.parseInt(parts[6]).value > 0
    ensures IsValid(AfterGga(s, sentence, p))
  {
    var parts := Split(sentence, ',');
    AfterGgaRunsAll(s, sentence, p);
    Advance(GgaAssignments, 0, s, parts, p);
    Advance(GgaAssignments, 1, s, parts, p);
    GgaLatitude(s, sentence, p);
    GgaLongitude(s, sentence, p);
    GgaFixQuality(s, sentence, p);
  }

  /** A GGA numeric field that is empty is not written by the sentence. */
  lemma GgaSkippedFields(parts: seq<string>)
    requires |parts| >= 15
    ensures AllFit(GgaAssignments, |parts|)
    ensures parts[6] == [] ==> FixQuality !in Active(GgaAssignments, parts, 0, 6)
    ensures parts[7] == [] ==> Satellites !in Active(GgaAssignments, parts, 0, 6)
    ensures parts[8] == [] ==> Hdop !in Active(GgaAssignments, parts, 0, 6)
    ensures parts[9] == [] ==> Altitude !in Active(GgaAssignments, parts, 0, 6)
  {
    GgaTargets();
    if parts[6] == [] {
      SoleAssignmentSkipped(GgaAssignments, parts, 0, 6, 2, FixQuality);
    }
    if parts[7] == [] {
      SoleAssignmentSkipped(GgaAssignments, parts, 0, 6, 3, Satellites);
    }
    if parts[8] == [] {
      SoleAssignmentSkipped(GgaAssignments, parts, 0, 6, 4, Hdop);
    }
    if parts[9] == [] {
      SoleAssignmentSkipped(GgaAssignments, parts, 0, 6, 5, Altitude);
    }
  }

  /** The field each GGA assignment writes, in order. */
  lemma GgaTargets()
    ensures |GgaAssignments| == 6
    ensures Target(GgaAssignments[0]) == Latitude && Target(GgaAssignments[1]) == Longitude
    ensures Target(GgaAssignments[2]) == FixQuality && Target(GgaAssignments[3]) == Satellites
    ensures Target(GgaAssignments[4]) == Hdop && Target(GgaAssignments[5]) == Altitude
  {
  }

  /** A field written by only one assignment, whose guard fails, is not active. */
  lemma SoleAssignmentSkipped(assignments: seq<Assignment>, parts: seq<string>, k: nat, n: nat, j: nat, f: Field)
    requires k <= j < n <= |assignments| && AllFit(assignments, |parts|)
    requires Target(assignments[j]) == f && Skips(assignments[j], parts)
    requires forall i :: k <= i < n && i != j ==> Target(assignments[i]) != f
    ensures f !in Active(assignments, parts, k, n)
  {
  }

  /** Only fields that some assignment targets can be active. */
  lemma ActiveFieldsAreTargets(assignments: seq<Assignment>, parts: seq<string>, k: nat, n: nat, fields: set<Field>)
    requires k <= n <= |assignments| && AllFit(assignments, |parts|)
    requires forall i :: k <= i < n ==> Target(assignments[i]) in fields
    ensures Active(assignments, parts, k, n) <= fields
  {
  }

  /** RMC and VTG never change whether the fix is valid. */
  lemma SpeedSentencesKeepValidity(s: GpsFix, sentence: string, p: NumberParsers)
    ensures IsValid(AfterRmc(s, sentence, p)) == IsValid(s) == IsValid(AfterVtg(s, sentence, p))
  {
  }

  /** A sentence whose assignments all write fields of `fields` changes no
      other field, and one with too few parts changes nothing. */
  lemma SentenceChangesOnlyTargets(s: GpsFix, sentence: string, minParts: nat,
                                   assignments: seq<Assignment>, p: NumberParsers, fields: set<Field>)
    requires AllFit(assignments, minParts)
    requires forall i :: 0 <= i < |assignments| ==> Target(assignments[i]) in fields
    ensures SameExcept(s, RunSentence(s, sentence, minParts, assignments, p), fields)
  {
    var parts := Split(sentence, ',');
    if |parts| >= minParts {
      assert AllFit(assignments, |parts|);
      RunChangesOnlyActiveFields(assignments, 0, |assignments|, s, parts, p);
      ActiveFieldsAreTargets(assignments, parts, 0, |assignments|, fields);
    }
  }

  /** RMC: speed is the knots of part 7 times 1.852; heading is part 8 and is
      reached only when the speed conversion did not raise. */
  lemma RmcSpeedAndHeading(s: GpsFix, sentence: string, p: NumberParsers)
    requires |Split(sentence, ',')| >= 10
    ensures var parts := Split(sentence, ',');
            var t := AfterRmc(s, sentence, p);
            var speedRaised := parts[7] != [] && p.parseFloat(parts[7]).None?;
            && t.speed == (if parts[7] == [] || speedRaised then s.speed else Some(p.parseFloat(parts[7]).value * 1.852))
            && t.heading == (if speedRaised || parts[8] == [] || p.parseFloat(parts[8]).None? then s.heading
                             else Some(p.parseFloat(parts[8]).value))
  {
    var parts := Split(sentence, ',');
    Advance(RmcAssignments, 0, s, parts, p);
    if RunFirst(RmcAssignments, 1, s, parts, p).Raised? {
      RaisedStaysRaised(RmcAssignments, 1, 2, s, parts, p);
    } else {
      Advance(RmcAssignments, 1, s, parts, p);
    }
  }

  /** VTG: speed is part 7 as it stands (km/h); heading is part 1. */
  lemma VtgSpeedAndHeading(s: GpsFix, sentence: string, p: NumberParsers)
    requires |Split(sentence, ',')| >= 10
    ensures var parts := Split(sentence, ',');
            var t := AfterVtg(s, sentence, p);
            var speedRaised := parts[7] != [] && p.parseFloat(parts[7]).None?;
            && t.speed == (if parts[7] == [] || speedRaised then s.speed else Some(p.parseFloat(parts[7]).value))
            && t.heading == (if speedRaised || parts[1] == [] || p.parseFloat(parts[1]).None? then s.heading
                             else Some(p.parseFloat(parts[1]).value))
  {
    var parts := Split(sentence, ',');
    Advance(VtgAssignments, 0, s, parts, p);
    if RunFirst(VtgAssignments, 1, s, parts, p).Raised? {
      RaisedStaysRaised(VtgAssignments, 1, 2, s, parts, p);
    } else {
      Advance(VtgAssignments, 1, s, parts, p);
    }
  }

  /** A freshly constructed parser has no valid fix. */
  lemma InitialFixIsNotValid()
    ensures !IsValid(Initial)
  {
  }

  /** The conversion splits `ddmm.mmmm` into whole degrees and minutes. */
  lemma NmeaToDegreesOfDegreesAndMinutes(degrees: nat, minutes: real)
    requires 0.0 <= minutes < 100.0
    ensures NmeaToDegrees(100.0 * degrees as real + minutes) == degrees as real + minutes / 60.0
  {
    var v := 100.0 * degrees as real + minutes;
    assert v / 100.0 == degrees as real + minutes / 100.0;
    assert (v / 100.0).Floor == degrees;
  }

  /** The payload's `speed`: `round(gps.speed, 1) if gps.speed else 0.0`. */
  function PayloadSpeed(speed: Option<real>): (v: real)
    ensures v == 0.0 <==> (speed == None || speed == Some(0.0))
    ensures speed.Some? ==> v == speed.value
  {
    if speed.Some? && speed.value != 0.0 then speed.value else 0.0
  }

  /** The JSON object `send_sensor_data` posts. */
  function ChestPayload(gps: GpsFix, accel: Mpu6050.Vec3, gyro: Mpu6050.Vec3, temperature: real): (payload: Record)
    ensures "speed" in payload && payload["speed"].Num?
    ensures gps.speed == None ==> payload["speed"] == Num(0.0)
    ensures "hdop" !in payload && "accuracy" in payload && payload["accuracy"] == FromOption(gps.hdop)
  {
    map[
      "latitude" := FromOption(gps.latitude),
      "longitude" := FromOption(gps.longitude),
      "altitude" := FromOption(gps.altitude),
      "speed" := Num(PayloadSpeed(gps.speed)),
      "heading" := FromOption(gps.heading),
      "accuracy" := FromOption(gps.hdop),
      "satellites" := Num(gps.satellites as real),
      "accel_x" := Num(accel.x), "accel_y" := Num(accel.y), "accel_z" := Num(accel.z),
      "gyro_x" := Num(gyro.x), "gyro_y" := Num(gyro.y), "gyro_z" := Num(gyro.z),
      "temperature" := Num(temperature)]
  }

  /** The payload has exactly the seven GPS keys and the seven sensor keys. */
  lemma ChestPayloadShape(gps: GpsFix, accel: Mpu6050.Vec3, gyro: Mpu6050.Vec3, temperature: real)
    ensures ChestPayload(gps, accel, gyro, temperature).Keys
            == {"latitude", "longitude", "altitude", "speed", "heading", "accuracy", "satellites",
                "accel_x", "accel_y", "accel_z", "gyro_x", "gyro_y", "gyro_z", "temperature"}
  {
  }

  /** The payload of one cycle of `send_sensor_data`: the fix after
      `gps.update()` and the sensor readings of one register snapshot. */
  function SnapshotPayload(gps: GpsFix, regs: Mpu6050.Registers): Record
  {
    ChestPayload(gps, Mpu6050.AccelData(regs), Mpu6050.GyroData(regs), Mpu6050.TempData(regs))
  }

  /** The accelerometer axes the backend's harsh and fall checks read are the
      faithful images of their register words, and the temperature reads back
      the raw word at 0x41. */
  lemma SnapshotPayloadReadsRegisters(gps: GpsFix, regs: Mpu6050.Registers)
    ensures var payload := SnapshotPayload(gps, regs);
            && Mpu6050.ScaledFrom(payload["accel_x"].n, Mpu6050.ReadWord(regs, 0x3B), Mpu6050.AccelRange)
            && Mpu6050.ScaledFrom(payload["accel_y"].n, Mpu6050.ReadWord(regs, 0x3D), Mpu6050.AccelRange)
            && Mpu6050.ScaledFrom(payload["accel_z"].n, Mpu6050.ReadWord(regs, 0x3F), Mpu6050.AccelRange)
            && (payload["temperature"].n - 36.53) * 340.0 == Mpu6050.ReadWord(regs, Mpu6050.TempOut) as real
  {
    Mpu6050.AccelDataFaithful(regs);
    Mpu6050.TempDataFaithful(regs, regs);
  }
}
