/** The seeded scenario of the map feature, run end to end: truck T-04 left
    alone drives into the accident zone and stops there under an alert;
    rerouted in time it reaches the safe haven and is announced once; rerouted
    only after its emergency stop it never moves again. */
module Scenario {
  import opened Wrappers
  import opened FleetModel
  import opened Motion
  import opened Proximity
  import opened Simulation

  const T04Index: nat := 3

  /** A vehicle the simulation never moves, never announces and never alerts about. */
  predicate Bystander(v: Vehicle) {
    && v.id != ScenarioVehicle
    && v.status != SafeArrival
    && forall j :: 0 <= j < |RiskZones| ==> !Near(v, RiskZones[j])
  }

  /** A six-vehicle fleet whose fourth vehicle is T-04 and whose others are bystanders. */
  predicate ScenarioFleet(fleet: seq<Vehicle>) {
    && |fleet| == |InitialFleet|
    && (forall k :: 0 <= k < |fleet| && k != T04Index ==> Bystander(fleet[k]))
    && fleet[T04Index].id == ScenarioVehicle
    && fleet[T04Index].plate == T04.plate
  }

  /** The seed fleet is such a fleet: no truck but T-04 starts near an alerting zone. */
  lemma InitialFleetIsScenario()
    ensures ScenarioFleet(InitialFleet)
  {
    forall k | 0 <= k < |InitialFleet| && k != T04Index
      ensures Bystander(InitialFleet[k])
    {
      var v := InitialFleet[k];
      forall j | 0 <= j < |RiskZones|
        ensures !Near(v, RiskZones[j])
      {
      }
    }
  }

  /** A tick of a scenario fleet moves only T-04, and raises no alert once T-04 is not eligible. */
  lemma ScenarioTick(p: SimState, now: int)
    requires ScenarioFleet(p.fleet)
    ensures var t := Tick(p, now);
            && ScenarioFleet(t.fleet)
            && t.fleet[T04Index] == StepVehicle(p.fleet[T04Index], p.rerouted)
            && (forall k :: 0 <= k < |t.fleet| && k != T04Index ==> t.fleet[k] == p.fleet[k])
            && (!Eligible(t.fleet[T04Index], p.rerouted) ==> t.alert.None?)
  {
    var t := Tick(p, now);
    TickAlert(p, now);
    if !Eligible(t.fleet[T04Index], p.rerouted) {
      forall i, j | 0 <= i < |t.fleet| && 0 <= j < |RiskZones|
        ensures !Qualifies(t.fleet[i], RiskZones[j], p.rerouted)
      {
        if i != T04Index {
          assert Bystander(t.fleet[i]);
        }
      }
    }
  }

  /** On a scenario fleet the arrival detector can only ever announce T-04. */
  lemma ScenarioArrive(t: SimState)
    requires ScenarioFleet(t.fleet)
    ensures Arrive(t) == if t.fleet[T04Index].status == SafeArrival && ScenarioVehicle in t.rerouted
                         then t.(rerouted := t.rerouted - {ScenarioVehicle}, notification := Some(T04.plate))
                         else t
  {
    forall k | 0 <= k < T04Index
      ensures t.fleet[k].status != SafeArrival
    {
      assert Bystander(t.fleet[k]);
    }
    if t.fleet[T04Index].status != SafeArrival {
      forall k | 0 <= k < |t.fleet|
        ensures t.fleet[k].status != SafeArrival
      {
        if k != T04Index {
          assert Bystander(t.fleet[k]);
        }
      }
    }
  }

  lemma {:induction false} RunLeavesOthers(v: Vehicle, rerouted: set<string>, n: nat)
    requires v.id != ScenarioVehicle
    ensures Run(v, rerouted, n) == v
  {
    if n > 0 {
      RunLeavesOthers(v, rerouted, n - 1);
    }
  }

  lemma {:induction false} RunKeepsIdentity(v: Vehicle, rerouted: set<string>, n: nat)
    ensures SameIdentity(Run(v, rerouted, n), v)
  {
    if n > 0 {
      RunKeepsIdentity(v, rerouted, n - 1);
    }
  }

  lemma MulPos(a: real, b: real)
    requires 0.0 < a && 0.0 < b
    ensures 0.0 < a * b
  {
  }

  lemma SquareBelow(x: real, b: real)
    requires 0.0 < b && Abs(x) < b
    ensures x * x < b * b
  {
    var a := Abs(x);
    assert x * x == a * a;
    MulPos(b - a, b + a);
    assert (b - a) * (b + a) == b * b - a * a;
  }

  /** Without any reroute a scenario fleet stays one, nobody is ever
      rerouted, and T-04 follows its hazard course tick by tick. */
  lemma {:induction false} UncontrolledRun(s: SimState, times: seq<int>)
    requires ScenarioFleet(s.fleet) && s.rerouted == {}
    decreases |times|
    ensures var r := Simulate(s, times);
            && ScenarioFleet(r.fleet)
            && r.fleet[T04Index] == Run(s.fleet[T04Index], {}, |times|)
            && r.rerouted == {}
  {
    if |times| > 0 {
      var n := |times|;
      UncontrolledRun(s, times[..n - 1]);
      var p := Simulate(s, times[..n - 1]);
      ScenarioTick(p, times[n - 1]);
      ScenarioArrive(Tick(p, times[n - 1]));
    }
  }

  /** A stopped T-04 within 0.003 of Z-03 is the last qualifying pair of the scan. */
  lemma StoppedT04IsLastPair(fleet: seq<Vehicle>)
    requires ScenarioFleet(fleet)
    requires fleet[T04Index].status == CriticalStop
    requires Abs(DeltaLat(fleet[T04Index], Z03.lat)) < CriticalTolerance
    requires Abs(DeltaLng(fleet[T04Index], Z03.lng)) < CriticalTolerance
    ensures AnyQualifying(fleet, RiskZones, {})
    ensures forall i, j :: IsLastQualifying(fleet, RiskZones, {}, i, j) ==> i == T04Index && j == 2
  {
    var w := fleet[T04Index];
    SquareBelow(DeltaLat(w, Z03.lat), CriticalTolerance);
    SquareBelow(DeltaLng(w, Z03.lng), CriticalTolerance);
    assert Qualifies(w, RiskZones[2], {});
    forall i', j' | 0 <= i' < |fleet| && i' != T04Index && 0 <= j' < |RiskZones|
      ensures !Qualifies(fleet[i'], RiskZones[j'], {})
    {
      assert Bystander(fleet[i']);
    }
  }

  /** A period that ends with T-04 stopped next to Z-03 leaves the alert slot
      naming (T-04, Z-03). */
  lemma StoppedPeriod(p: SimState, now: int)
    requires ScenarioFleet(p.fleet) && p.rerouted == {}
    requires var w := Step(p, now).fleet[T04Index];
             && w.status == CriticalStop
             && Abs(DeltaLat(w, Z03.lat)) < CriticalTolerance
             && Abs(DeltaLng(w, Z03.lng)) < CriticalTolerance
    ensures Step(p, now).alert == Some(Alert(ScenarioVehicle, ScenarioHazard))
  {
    ScenarioTick(p, now);
    var t := Tick(p, now);
    TickAlert(p, now);
    ScenarioArrive(t);
    StoppedT04IsLastPair(t.fleet);
    var i, j :| IsLastQualifying(t.fleet, RiskZones, {}, i, j) && t.alert == Some(Alert(t.fleet[i].id, RiskZones[j].id));
  }

  /** Left alone, T-04's course ends in CRITICAL_STOP next to Z-03 within 211 periods. */
  lemma UncontrolledStop(s: SimState, times: seq<int>)
    requires ScenarioFleet(s.fleet) && s.rerouted == {}
    requires Active(s.fleet[T04Index].status)
    requires Abs(DeltaLat(s.fleet[T04Index], Z03.lat)) <= 0.1 && Abs(DeltaLng(s.fleet[T04Index], Z03.lng)) <= 0.1
    requires |times| >= 211
    ensures var r := Simulate(s, times);
            && ScenarioFleet(r.fleet)
            && r.rerouted == {}
            && r.fleet[T04Index].status == CriticalStop
            && r.fleet[T04Index].speed == 0.0
            && Abs(DeltaLat(r.fleet[T04Index], Z03.lat)) < CriticalTolerance
            && Abs(DeltaLng(r.fleet[T04Index], Z03.lng)) < CriticalTolerance
  {
    var v := s.fleet[T04Index];
    UncontrolledRun(s, times);
    HazardConvergence(v, |times|);
    HazardStopSpeed(v, |times|);
  }

  /** Left alone, with T-04 on the move within 0.1 degree of Z-03 (as in the
      seed state), T-04 is stopped next to Z-03 after at most 211 periods, and
      the alert slot then names (T-04, Z-03). */
  lemma UncontrolledScenario(s: SimState, times: seq<int>)
    requires ScenarioFleet(s.fleet) && s.rerouted == {}
    requires Active(s.fleet[T04Index].status)
    requires Abs(DeltaLat(s.fleet[T04Index], Z03.lat)) <= 0.1 && Abs(DeltaLng(s.fleet[T04Index], Z03.lng)) <= 0.1
    requires |times| >= 211
    ensures var r := Simulate(s, times);
            && ScenarioFleet(r.fleet)
            && r.rerouted == {}
            && r.fleet[T04Index].status == CriticalStop
            && r.fleet[T04Index].speed == 0.0
            && r.alert == Some(Alert(ScenarioVehicle, ScenarioHazard))
  {
    var n := |times|;
    var p := Simulate(s, times[..n - 1]);
    SimulateLast(s, times);
    UncontrolledStop(s, times);
    UncontrolledRun(s, times[..n - 1]);
    assert ScenarioFleet(p.fleet) && p.rerouted == {};
    StoppedPeriod(p, times[n - 1]);
  }

  lemma SimulateLast(s: SimState, times: seq<int>)
    requires |times| > 0
    ensures Simulate(s, times) == Step(Simulate(s, times[..|times| - 1]), times[|times| - 1])
  {
  }

  /** The seed state is such a starting point. */
  lemma InitialIsUncontrolledStart()
    ensures && ScenarioFleet(Initial.fleet) && Initial.rerouted == {}
            && Active(Initial.fleet[T04Index].status)
            && Abs(DeltaLat(Initial.fleet[T04Index], Z03.lat)) <= 0.1
            && Abs(DeltaLng(Initial.fleet[T04Index], Z03.lng)) <= 0.1
  {
    InitialFleetIsScenario();
  }

  lemma {:induction false} HazardStopSpeed(v: Vehicle, n: nat)
    requires v.id == ScenarioVehicle && Active(v.status)
    ensures Run(v, {}, n).status == CriticalStop ==> Run(v, {}, n).speed == 0.0
  {
    if n > 0 {
      HazardStopSpeed(v, n - 1);
      HazardDecay(v, {}, n - 1);
      var u := Run(v, {}, n - 1);
      if u.status != CriticalStop {
        HazardStep(u, {});
      }
    }
  }

  /** What the state looks like `n` periods after T-04 was rerouted from an active state. */
  predicate AfterReroute(r: SimState, v: Vehicle, n: nat, note: Option<string>) {
    var w := Run(v, {ScenarioVehicle}, n);
    && ScenarioFleet(r.fleet)
    && r.fleet[T04Index] == w
    && (w.status == SafeArrival ==> r.rerouted == {} && r.notification == Some(T04.plate))
    && (w.status != SafeArrival ==> r.rerouted == {ScenarioVehicle} && r.notification == note)
    && r.alert.None?
  }

  lemma {:induction false} ReroutedRun(s: SimState, times: seq<int>)
    requires ScenarioFleet(s.fleet) && s.rerouted == {ScenarioVehicle} && s.alert.None?
    requires s.fleet[T04Index].status != SafeArrival
    decreases |times|
    ensures AfterReroute(Simulate(s, times), s.fleet[T04Index], |times|, s.notification)
  {
    if |times| > 0 {
      var n := |times|;
      ReroutedRun(s, times[..n - 1]);
      ReroutedPeriod(Simulate(s, times[..n - 1]), times[n - 1], s.fleet[T04Index], n - 1, s.notification);
    }
  }

  /** One more period of a rerouted run moves T-04 one step further along its
      haven course, announcing it once it has arrived. */
  lemma ReroutedPeriod(p: SimState, now: int, v: Vehicle, n: nat, note: Option<string>)
    requires AfterReroute(p, v, n, note)
    ensures AfterReroute(Step(p, now), v, n + 1, note)
  {
    ScenarioTick(p, now);
    var t := Tick(p, now);
    ScenarioArrive(t);
    assert t.fleet[T04Index] == Run(v, {ScenarioVehicle}, n + 1);
  }

  /** Rerouted while still on the move, T-04 reaches the haven within 185
      periods; it then leaves the rerouted set, its plate is announced, and no
      alert stands. */
  lemma RerouteScenario(s: SimState, times: seq<int>)
    requires ScenarioFleet(s.fleet) && s.rerouted == {}
    requires Active(s.fleet[T04Index].status)
    requires MinLat <= s.fleet[T04Index].lat <= MaxLat && MinLng <= s.fleet[T04Index].lng <= MaxLng
    requires |times| >= 185
    ensures var r := Simulate(Reroute(s, ScenarioVehicle), times);
            && ScenarioFleet(r.fleet)
            && r.fleet[T04Index].status == SafeArrival
            && r.rerouted == {}
            && r.notification == Some(T04.plate)
            && r.alert.None?
  {
    var v := s.fleet[T04Index];
    ReroutedRun(Reroute(s, ScenarioVehicle), times);
    HavenConvergence(v, {ScenarioVehicle});
    StaysStopped(v, {ScenarioVehicle}, 185, |times|);
  }

  /** With T-04 stopped and rerouted, a period leaves the fleet, the rerouted
      set and the notification as they were, and raises no alert. */
  lemma StoppedReroutedStep(p: SimState, now: int)
    requires ScenarioFleet(p.fleet) && ScenarioVehicle in p.rerouted
    requires p.fleet[T04Index].status == CriticalStop
    ensures var q := Step(p, now);
            && q.fleet == p.fleet
            && q.rerouted == p.rerouted
            && q.notification == p.notification
            && q.alert.None?
  {
    ScenarioTick(p, now);
    var t := Tick(p, now);
    assert t.fleet == p.fleet;
    ScenarioArrive(t);
  }

  /** Rerouted only after its emergency stop, T-04 never moves again: it stays
      in the rerouted set, is never announced, and no alert is raised. */
  lemma {:induction false} RerouteAfterStop(s: SimState, times: seq<int>)
    requires ScenarioFleet(s.fleet)
    requires s.fleet[T04Index].status == CriticalStop
    decreases |times|
    ensures var r := Simulate(Reroute(s, ScenarioVehicle), times);
            && r.fleet == s.fleet
            && ScenarioVehicle in r.rerouted
            && r.notification == s.notification
            && r.alert.None?
  {
    if |times| > 0 {
      var n := |times|;
      RerouteAfterStop(s, times[..n - 1]);
      StoppedReroutedStep(Simulate(Reroute(s, ScenarioVehicle), times[..n - 1]), times[n - 1]);
    }
  }
}
