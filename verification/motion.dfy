/** The per-tick motion rule of the fleet simulation. Only the scenario
    vehicle moves: toward the accident zone, or toward the safe haven once
    it has been rerouted, each time by a fixed fraction of what remains. */
module Motion {
  import opened Wrappers
  import opened FleetModel

  const HazardFraction: real := 0.02
  const HavenFraction: real := 0.03
  const CriticalTolerance: real := 0.003
  const ArrivalTolerance: real := 0.005
  const WarningSpeed: real := 60.0
  const RerouteHeading: real := 315.0

  /** The statuses a tick may change; all others are left alone. */
  predicate Active(s: Status) {
    s == Moving || s == RiskWarning || s == Rerouted
  }

  /** The fields a tick never touches. */
  predicate SameIdentity(a: Vehicle, b: Vehicle) {
    a.id == b.id && a.plate == b.plate && a.driver == b.driver
    && a.cargo == b.cargo && a.destination == b.destination
  }

  /** One tick of one vehicle, given the set of rerouted vehicle ids. */
  function StepVehicle(v: Vehicle, rerouted: set<string>): (r: Vehicle)
    ensures SameIdentity(r, v)
    ensures !Active(v.status) || v.id != ScenarioVehicle ==> r == v
    ensures r != v ==> Active(v.status) && v.id == ScenarioVehicle
  {
    if v.status == SafeArrival then v
    else if !Active(v.status) then v
    else if v.id == ScenarioVehicle then
      if v.id in rerouted then
        var dLat := SafeHavenLat - v.lat;
        var dLng := SafeHavenLng - v.lng;
        if Abs(dLat) < ArrivalTolerance && Abs(dLng) < ArrivalTolerance then
          v.(status := SafeArrival, speed := 0.0)
        else
          v.(lat := v.lat + dLat * HavenFraction, lng := v.lng + dLng * HavenFraction,
             heading := RerouteHeading, status := Rerouted)
      else
        match FindZone(RiskZones, ScenarioHazard)
        case Some(target) =>
          var dLat := target.lat - v.lat;
          var dLng := target.lng - v.lng;
          if Abs(dLat) < CriticalTolerance && Abs(dLng) < CriticalTolerance then
            v.(status := CriticalStop, speed := 0.0)
          else
            v.(lat := v.lat + dLat * HazardFraction, lng := v.lng + dLng * HazardFraction,
               status := RiskWarning, speed := WarningSpeed)
        case None => v
    else v
  }

  /** The scenario's hazard target is the accident zone Z-03. */
  lemma HazardTargetIsZ03()
    ensures FindZone(RiskZones, ScenarioHazard) == Some(Z03)
  {
    assert RiskZones[0].id != ScenarioHazard;
    assert RiskZones[1].id != ScenarioHazard;
    assert RiskZones[2].id == ScenarioHazard;
  }

  /** Remaining offset from a vehicle to a fixed point. */
  function DeltaLat(v: Vehicle, lat: real): real { lat - v.lat }
  function DeltaLng(v: Vehicle, lng: real): real { lng - v.lng }

  /** Not rerouted: the scenario vehicle either stops in place next to Z-03,
      or closes 2% of the remaining offset, slowing to 60 with its heading kept. */
  lemma HazardStep(v: Vehicle, rerouted: set<string>)
    requires v.id == ScenarioVehicle && v.id !in rerouted && Active(v.status)
    ensures var r := StepVehicle(v, rerouted);
            if Abs(DeltaLat(v, Z03.lat)) < CriticalTolerance && Abs(DeltaLng(v, Z03.lng)) < CriticalTolerance
            then r == v.(status := CriticalStop, speed := 0.0)
            else && r.status == RiskWarning && r.speed == WarningSpeed && r.heading == v.heading
                 && DeltaLat(r, Z03.lat) == 0.98 * DeltaLat(v, Z03.lat)
                 && DeltaLng(r, Z03.lng) == 0.98 * DeltaLng(v, Z03.lng)
  {
    HazardTargetIsZ03();
  }

  /** Rerouted: the scenario vehicle either arrives in place at the haven,
      or closes 3% of the remaining offset on heading 315 with its speed kept. */
  lemma HavenStep(v: Vehicle, rerouted: set<string>)
    requires v.id == ScenarioVehicle && v.id in rerouted && Active(v.status)
    ensures var r := StepVehicle(v, rerouted);
            if Abs(DeltaLat(v, SafeHavenLat)) < ArrivalTolerance && Abs(DeltaLng(v, SafeHavenLng)) < ArrivalTolerance
            then r == v.(status := SafeArrival, speed := 0.0)
            else && r.status == Rerouted && r.heading == RerouteHeading && r.speed == v.speed
                 && DeltaLat(r, SafeHavenLat) == 0.97 * DeltaLat(v, SafeHavenLat)
                 && DeltaLng(r, SafeHavenLng) == 0.97 * DeltaLng(v, SafeHavenLng)
  {
  }

  /** The tick's motion pass: one step per vehicle, in fleet order. */
  function MoveFleet(fleet: seq<Vehicle>, rerouted: set<string>): (r: seq<Vehicle>)
    ensures |r| == |fleet|
    ensures forall k :: 0 <= k < |fleet| ==> r[k] == StepVehicle(fleet[k], rerouted)
    ensures forall k :: 0 <= k < |fleet| ==> SameIdentity(r[k], fleet[k])
    ensures forall k :: 0 <= k < |fleet| && (!Active(fleet[k].status) || fleet[k].id != ScenarioVehicle)
              ==> r[k] == fleet[k]
  {
    seq(|fleet|, k requires 0 <= k < |fleet| => StepVehicle(fleet[k], rerouted))
  }

  /** `n` ticks of one vehicle under a fixed rerouted set. */
  function Run(v: Vehicle, rerouted: set<string>, n: nat): Vehicle {
    if n == 0 then v else StepVehicle(Run(v, rerouted, n - 1), rerouted)
  }

  /** `d` scaled `n` times by the factor `f`: the offset left after `n` moves
      that each close `1 - f` of the remaining offset. */
  function Decay(f: real, d: real, n: nat): real {
    if n == 0 then d else f * Decay(f, d, n - 1)
  }

  lemma {:induction false} DecayCompose(f: real, d: real, a: nat, b: nat)
    ensures Decay(f, d, a + b) == Decay(f, Decay(f, d, a), b)
  {
    if b > 0 {
      DecayCompose(f, d, a, b - 1);
    }
  }

  lemma {:induction false} DecayNegate(f: real, d: real, n: nat)
    ensures Decay(f, -d, n) == -Decay(f, d, n)
  {
    if n > 0 {
      DecayNegate(f, d, n - 1);
    }
  }

  /** Uncontrolled, the scenario vehicle's offset to Z-03 shrinks geometrically
      by 0.98 per tick until it stops, and once stopped it is within 0.003 of
      the zone on both axes. */
  lemma {:induction false} HazardDecay(v: Vehicle, rerouted: set<string>, n: nat)
    requires v.id == ScenarioVehicle && v.id !in rerouted && Active(v.status)
    ensures var w := Run(v, rerouted, n);
            && w.id == ScenarioVehicle
            && (w.status == CriticalStop ==>
                  Abs(DeltaLat(w, Z03.lat)) < CriticalTolerance && Abs(DeltaLng(w, Z03.lng)) < CriticalTolerance)
            && (w.status != CriticalStop ==>
                  && Active(w.status)
                  && DeltaLat(w, Z03.lat) == Decay(0.98, DeltaLat(v, Z03.lat), n)
                  && DeltaLng(w, Z03.lng) == Decay(0.98, DeltaLng(v, Z03.lng), n))
  {
    if n > 0 {
      HazardDecay(v, rerouted, n - 1);
      var u := Run(v, rerouted, n - 1);
      if u.status != CriticalStop {
        HazardStep(u, rerouted);
      }
    }
  }

  lemma HazardFiveTicks(d: real)
    ensures Decay(0.98, d, 5) == 0.9039207968 * d
  {
    assert Decay(0.98, d, 1) == 0.98 * d;
    assert Decay(0.98, d, 2) == 0.9604 * d;
    assert Decay(0.98, d, 3) == 0.941192 * d;
    assert Decay(0.98, d, 4) == 0.92236816 * d;
  }

  /** 35 hazard ticks at least halve a non-negative offset. */
  lemma HazardHalfLife(d: real)
    requires 0.0 <= d
    ensures 0.0 <= Decay(0.98, d, 35) <= 0.5 * d
  {
    var x := d;
    var k := 0;
    while k < 7
      invariant 0 <= k <= 7
      invariant x == Decay(0.98, d, 5 * k)
      invariant x == Decay(0.9039207968, d, k)
    {
      HazardFiveTicks(x);
      DecayCompose(0.98, d, 5 * k, 5);
      x := Decay(0.98, x, 5);
      k := k + 1;
    }
    assert x == Decay(0.98, d, 35);
    assert x == Decay(0.9039207968, d, 7);
    var c := 0.9039207968;
    assert Decay(c, d, 7) == (c * c * c * c * c * c * c) * d by {
      assert Decay(c, d, 1) == c * d;
      assert Decay(c, d, 2) == (c * c) * d;
      assert Decay(c, d, 3) == (c * c * c) * d;
      assert Decay(c, d, 4) == (c * c * c * c) * d;
      assert Decay(c, d, 5) == (c * c * c * c * c) * d;
      assert Decay(c, d, 6) == (c * c * c * c * c * c) * d;
    }
  }

  /** `k` half-lives of hazard ticks scale an offset by at most 2^-k. */
  lemma {:induction false} HazardHalvings(d: real, k: nat)
    requires 0.0 <= d
    ensures 0.0 <= Decay(0.98, d, 35 * k) <= Decay(0.5, d, k)
  {
    if k > 0 {
      HazardHalvings(d, k - 1);
      var x := Decay(0.98, d, 35 * (k - 1));
      HazardHalfLife(x);
      DecayCompose(0.98, d, 35 * (k - 1), 35);
      assert 35 * (k - 1) + 35 == 35 * k;
    }
  }

  lemma {:induction false} HalvingsBound(d: real, b: real, k: nat)
    requires 0.0 <= d <= b
    ensures 0.0 <= Decay(0.5, d, k) <= Decay(0.5, b, k)
  {
    if k > 0 {
      HalvingsBound(d, b, k - 1);
    }
  }

  /** After 210 hazard ticks an offset of at most 0.1 degree is below the stop tolerance. */
  lemma HazardOffsetSmall(d: real)
    requires Abs(d) <= 0.1
    ensures Abs(Decay(0.98, d, 210)) < CriticalTolerance
  {
    var a := Abs(d);
    HazardHalvings(a, 6);
    HalvingsBound(a, 0.1, 6);
    assert Decay(0.5, 0.1, 6) == 0.0015625 by {
      assert Decay(0.5, 0.1, 1) == 0.05;
      assert Decay(0.5, 0.1, 2) == 0.025;
      assert Decay(0.5, 0.1, 3) == 0.0125;
      assert Decay(0.5, 0.1, 4) == 0.00625;
      assert Decay(0.5, 0.1, 5) == 0.003125;
    }
    if d < 0.0 {
      DecayNegate(0.98, a, 210);
    }
  }

  /** Left alone, a scenario vehicle that starts within 0.1 degree of Z-03 on
      both axes (the seed position is 0.10 and 0.08 away) is in CRITICAL_STOP
      after at most 211 ticks, and from then on stays stopped within 0.003 of
      the zone. */
  lemma HazardConvergence(v: Vehicle, n: nat)
    requires v.id == ScenarioVehicle && Active(v.status)
    requires Abs(DeltaLat(v, Z03.lat)) <= 0.1 && Abs(DeltaLng(v, Z03.lng)) <= 0.1
    requires n >= 211
    ensures Run(v, {}, n).status == CriticalStop
    ensures Abs(DeltaLat(Run(v, {}, n), Z03.lat)) < CriticalTolerance
    ensures Abs(DeltaLng(Run(v, {}, n), Z03.lng)) < CriticalTolerance
  {
    HazardDecay(v, {}, 210);
    var w := Run(v, {}, 210);
    if w.status != CriticalStop {
      HazardOffsetSmall(DeltaLat(v, Z03.lat));
      HazardOffsetSmall(DeltaLng(v, Z03.lng));
      HazardStep(w, {});
    }
    StaysStopped(v, {}, 211, n);
    HazardDecay(v, {}, n);
  }

  /** CRITICAL_STOP and SAFE_ARRIVAL are absorbing: later ticks leave the vehicle as it is. */
  lemma {:induction false} StaysStopped(v: Vehicle, rerouted: set<string>, m: nat, n: nat)
    requires m <= n
    requires Run(v, rerouted, m).status == CriticalStop || Run(v, rerouted, m).status == SafeArrival
    ensures Run(v, rerouted, n) == Run(v, rerouted, m)
  {
    if m < n {
      StaysStopped(v, rerouted, m, n - 1);
    }
  }

  /** Once rerouted, the scenario vehicle's offset to the haven shrinks by 0.97
      per tick until it arrives, and on arrival it is within 0.005 on both axes. */
  lemma {:induction false} HavenDecay(v: Vehicle, rerouted: set<string>, n: nat)
    requires v.id == ScenarioVehicle && v.id in rerouted && Active(v.status)
    ensures var w := Run(v, rerouted, n);
            && w.id == ScenarioVehicle
            && (w.status == SafeArrival ==>
                  Abs(DeltaLat(w, SafeHavenLat)) < ArrivalTolerance && Abs(DeltaLng(w, SafeHavenLng)) < ArrivalTolerance)
            && (w.status != SafeArrival ==>
                  && Active(w.status)
                  && DeltaLat(w, SafeHavenLat) == Decay(0.97, DeltaLat(v, SafeHavenLat), n)
                  && DeltaLng(w, SafeHavenLng) == Decay(0.97, DeltaLng(v, SafeHavenLng), n))
  {
    if n > 0 {
      HavenDecay(v, rerouted, n - 1);
      var u := Run(v, rerouted, n - 1);
      if u.status != SafeArrival {
        HavenStep(u, rerouted);
      }
    }
  }

  lemma HavenFourTicks(d: real)
    ensures Decay(0.97, d, 4) == 0.88529281 * d
  {
    assert Decay(0.97, d, 1) == 0.97 * d;
    assert Decay(0.97, d, 2) == 0.9409 * d;
    assert Decay(0.97, d, 3) == 0.912673 * d;
  }

  /** 23 haven ticks at least halve a non-negative offset. */
  lemma HavenHalfLife(d: real)
    requires 0.0 <= d
    ensures 0.0 <= Decay(0.97, d, 23) <= 0.5 * d
  {
    var x := d;
    var k := 0;
    while k < 5
      invariant 0 <= k <= 5
      invariant x == Decay(0.97, d, 4 * k)
      invariant x == Decay(0.88529281, d, k)
    {
      HavenFourTicks(x);
      DecayCompose(0.97, d, 4 * k, 4);
      x := Decay(0.97, x, 4);
      k := k + 1;
    }
    var c := 0.88529281;
    assert x == (c * c * c * c * c) * d by {
      assert Decay(c, d, 1) == c * d;
      assert Decay(c, d, 2) == (c * c) * d;
      assert Decay(c, d, 3) == (c * c * c) * d;
      assert Decay(c, d, 4) == (c * c * c * c) * d;
    }
    DecayCompose(0.97, d, 20, 3);
    assert Decay(0.97, x, 3) == 0.912673 * x by {
      assert Decay(0.97, x, 1) == 0.97 * x;
      assert Decay(0.97, x, 2) == 0.9409 * x;
    }
  }

  /** `k` half-lives of haven ticks scale an offset by at most 2^-k. */
  lemma {:induction false} HavenHalvings(d: real, k: nat)
    requires 0.0 <= d
    ensures 0.0 <= Decay(0.97, d, 23 * k) <= Decay(0.5, d, k)
  {
    if k > 0 {
      HavenHalvings(d, k - 1);
      var x := Decay(0.97, d, 23 * (k - 1));
      HavenHalfLife(x);
      DecayCompose(0.97, d, 23 * (k - 1), 23);
      assert 23 * (k - 1) + 23 == 23 * k;
    }
  }

  /** After 184 haven ticks an offset of at most one degree is below the arrival tolerance. */
  lemma HavenOffsetSmall(d: real)
    requires Abs(d) <= 1.0
    ensures Abs(Decay(0.97, d, 184)) < ArrivalTolerance
  {
    var a := Abs(d);
    HavenHalvings(a, 8);
    HalvingsBound(a, 1.0, 8);
    assert Decay(0.5, 1.0, 8) == 0.00390625 by {
      assert Decay(0.5, 1.0, 1) == 0.5;
      assert Decay(0.5, 1.0, 2) == 0.25;
      assert Decay(0.5, 1.0, 3) == 0.125;
      assert Decay(0.5, 1.0, 4) == 0.0625;
      assert Decay(0.5, 1.0, 5) == 0.03125;
      assert Decay(0.5, 1.0, 6) == 0.015625;
      assert Decay(0.5, 1.0, 7) == 0.0078125;
    }
    if d < 0.0 {
      DecayNegate(0.97, a, 184);
    }
  }

  /** A rerouted scenario vehicle that starts within one degree of the haven on
      both axes (every point of the map's box does) arrives within 185 ticks. */
  lemma HavenConvergence(v: Vehicle, rerouted: set<string>)
    requires v.id == ScenarioVehicle && v.id in rerouted && Active(v.status)
    requires Abs(DeltaLat(v, SafeHavenLat)) <= 1.0 && Abs(DeltaLng(v, SafeHavenLng)) <= 1.0
    ensures Run(v, rerouted, 185).status == SafeArrival
  {
    HavenDecay(v, rerouted, 184);
    var w := Run(v, rerouted, 184);
    if w.status != SafeArrival {
      HavenOffsetSmall(DeltaLat(v, SafeHavenLat));
      HavenOffsetSmall(DeltaLng(v, SafeHavenLng));
      HavenStep(w, rerouted);
    }
  }
}
