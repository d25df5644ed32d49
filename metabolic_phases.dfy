/** The metabolic phases of a fast and the hour-of-day danger zones
    (src/utils/metabolicPhases.ts). Hours are reals; an open end stands for `Infinity`. */
module MetabolicPhases {
  import opened Wrappers
  import opened Types

  datatype Phase = Phase(name: string, color: string, startHours: real, endHours: Option<real>)

  const Phases: seq<Phase> := [
    Phase("Anabolic", "#38B2AC", 0.0, Some(4.0)),
    Phase("Catabolic", "#ECC94B", 4.0, Some(16.0)),
    Phase("Fat Burning", "#ED8936", 16.0, Some(24.0)),
    Phase("Ketosis", "#D53F8C", 24.0, None)
  ]

  /** `hours >= startHours && hours < endHours` */
  predicate InPhase(p: Phase, hours: real) {
    p.startHours <= hours && (p.endHours.None? || hours < p.endHours.value)
  }

  /** The table covers the hours from 0 on without gap or overlap: it starts at 0, each
      phase begins where the previous one ends, and only the last is open-ended. */
  lemma PhasesContiguous()
    ensures Phases[0].startHours == 0.0
    ensures forall i :: 0 <= i < |Phases| - 1 ==> Phases[i].endHours == Some(Phases[i + 1].startHours)
    ensures forall i :: 0 <= i < |Phases| - 1 ==> Phases[i].startHours < Phases[i + 1].startHours
    ensures Phases[|Phases| - 1].endHours.None?
  {
  }

  /** `phases.find(p => InPhase(p, hours))` */
  function Find(phases: seq<Phase>, hours: real): (r: Option<nat>)
    ensures r.Some? ==> r.value < |phases| && InPhase(phases[r.value], hours)
    ensures r.Some? ==> forall j :: 0 <= j < r.value ==> !InPhase(phases[j], hours)
    ensures r.None? ==> forall j :: 0 <= j < |phases| ==> !InPhase(phases[j], hours)
  {
    if phases == [] then None
    else if InPhase(phases[0], hours) then Some(0)
    else
      match Find(phases[1..], hours)
      case Some(k) => Some(k + 1)
      case None => None
  }

  /** `getCurrentPhase`: the first phase containing `hours`, or the last phase. */
  function GetCurrentPhase(hours: real): (p: Phase)
    ensures p in Phases
    ensures hours >= 0.0 ==> InPhase(p, hours)
    ensures hours < 0.0 ==> p == Phases[3]
  {
    match Find(Phases, hours)
    case Some(i) => Phases[i]
    case None =>
      assert !InPhase(Phases[Cover(hours)], hours);
      Phases[|Phases| - 1]
  }

  /** The phase whose interval holds a non-negative hour, by the table's bounds. */
  function Cover(hours: real): (i: nat)
    ensures i < |Phases|
    ensures hours >= 0.0 ==> InPhase(Phases[i], hours)
  {
    if hours < 4.0 then 0 else if hours < 16.0 then 1 else if hours < 24.0 then 2 else 3
  }

  /** For non-negative hours exactly one phase contains them, and it is the current one. */
  lemma CurrentPhaseUnique(hours: real, i: nat)
    requires hours >= 0.0 && i < |Phases| && InPhase(Phases[i], hours)
    ensures GetCurrentPhase(hours) == Phases[i]
  {
    forall j | 0 <= j < |Phases| && j != i ensures !InPhase(Phases[j], hours) {
      if j < i {
        assert Phases[j].endHours.value <= Phases[i].startHours;
      } else {
        assert Phases[i].endHours.value <= Phases[j].startHours;
      }
    }
  }

  /** Each boundary hour belongs to the phase that begins there. */
  lemma PhaseBoundaries()
    ensures GetCurrentPhase(0.0).name == "Anabolic"
    ensures GetCurrentPhase(4.0).name == "Catabolic"
    ensures GetCurrentPhase(16.0).name == "Fat Burning"
    ensures GetCurrentPhase(24.0).name == "Ketosis"
  {
    CurrentPhaseUnique(0.0, 0);
    CurrentPhaseUnique(4.0, 1);
    CurrentPhaseUnique(16.0, 2);
    CurrentPhaseUnique(24.0, 3);
  }

  function Min(a: real, b: real): real {
    if a <= b then a else b
  }

  /** `getPhaseProgress`: how far into the current phase `hours` lies, with the open-ended
      last phase measured over 24 hours; capped at 1. */
  function GetPhaseProgress(hours: real): (r: real)
    ensures hours >= 0.0 ==> 0.0 <= r <= 1.0
    ensures r <= 1.0
  {
    var p := GetCurrentPhase(hours);
    if p.endHours.None? then Min((hours - p.startHours) / 24.0, 1.0)
    else
      assert p.endHours.value > p.startHours by { PhasesContiguous(); }
      Min((hours - p.startHours) / (p.endHours.value - p.startHours), 1.0)
  }

  /** `zones.some(z => currentHour >= z.start && currentHour < z.end)` */
  function AnyZoneCovers(zones: seq<DangerZone>, currentHour: int): (r: bool)
    ensures r <==> exists i :: 0 <= i < |zones| && zones[i].start <= currentHour < zones[i].end
  {
    if zones == [] then false
    else if zones[0].start <= currentHour < zones[0].end then true
    else
      var r := AnyZoneCovers(zones[1..], currentHour);
      assert r ==> exists i :: 1 <= i < |zones| && zones[i].start <= currentHour < zones[i].end by {
        if r {
          var i :| 0 <= i < |zones[1..]| && zones[1..][i].start <= currentHour < zones[1..][i].end;
          assert zones[i + 1] == zones[1..][i];
        }
      }
      r
  }

  /** `isDangerZone(hours, zones)` with the clock's hour of day as `currentHour`: the
      fasting hours passed in play no part. */
  function IsDangerZone(hours: real, zones: seq<DangerZone>, currentHour: int): (r: bool)
    ensures r <==> exists i :: 0 <= i < |zones| && zones[i].start <= currentHour < zones[i].end
  {
    AnyZoneCovers(zones, currentHour)
  }
}
