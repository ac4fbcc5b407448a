/** The simulation context of the map feature: the fleet, the single alert
    slot, the rerouted set, the arrival notification and the debounce clock,
    with the three transitions that change them: a tick, the operator's
    reroute command and the arrival detector. */
module Simulation {
  import opened Wrappers
  import opened FleetModel
  import opened Motion
  import opened Proximity

  datatype SimState = SimState(
    fleet: seq<Vehicle>,
    alert: Option<Alert>,
    rerouted: set<string>,
    notification: Option<string>,
    lastBeep: int,
    audioEnabled: bool)

  /** The state the map feature starts in. */
  const Initial := SimState(InitialFleet, None, {}, None, 0, false)

  /** One timer tick at wall-clock time `now` (ms): the motion pass, then the
      proximity pass over the moved fleet, then the alert sound if an alert stands. */
  function Tick(s: SimState, now: int): (r: SimState)
    ensures |r.fleet| == |s.fleet|
    ensures forall k :: 0 <= k < |s.fleet| ==> r.fleet[k] == StepVehicle(s.fleet[k], s.rerouted)
    ensures r.alert == DetectProximity(r.fleet, RiskZones, s.rerouted)
    ensures r.lastBeep != s.lastBeep <==> r.alert.Some? && s.audioEnabled && now - s.lastBeep >= DebounceMs
    ensures r.lastBeep != s.lastBeep ==> r.lastBeep == now
    ensures r.rerouted == s.rerouted && r.notification == s.notification && r.audioEnabled == s.audioEnabled
    ensures FleetIds(r.fleet) == FleetIds(s.fleet)
  {
    var fleet' := MoveFleet(s.fleet, s.rerouted);
    var alert := DetectProximity(fleet', RiskZones, s.rerouted);
    var lastBeep := if alert.Some? then AlertSound(s.audioEnabled, s.lastBeep, now).lastBeep else s.lastBeep;
    s.(fleet := fleet', alert := alert, lastBeep := lastBeep)
  }

  /** The operator's reroute command. It adds the id whatever it is and
      clears the alert whichever vehicle it named. */
  function Reroute(s: SimState, id: string): (r: SimState)
    ensures id in r.rerouted && s.rerouted <= r.rerouted && r.rerouted - {id} == s.rerouted - {id}
    ensures r.alert.None?
    ensures r.fleet == s.fleet && r.notification == s.notification
    ensures r.lastBeep == s.lastBeep && r.audioEnabled == s.audioEnabled
  {
    s.(rerouted := s.rerouted + {id}, alert := None)
  }

  /** The speaker button: flips whether alerts are audible and nothing else. */
  function ToggleAudio(s: SimState): (r: SimState)
    ensures r.audioEnabled == !s.audioEnabled
    ensures r.fleet == s.fleet && r.alert == s.alert && r.rerouted == s.rerouted
    ensures r.notification == s.notification && r.lastBeep == s.lastBeep
  {
    s.(audioEnabled := !s.audioEnabled)
  }

  /** Pressing the speaker button twice restores the state. */
  lemma ToggleAudioTwice(s: SimState)
    ensures ToggleAudio(ToggleAudio(s)) == s
  {
  }

  /** Index of the first SAFE_ARRIVAL vehicle, as `fleet.find` locates it. */
  function FirstArrived(fleet: seq<Vehicle>): (r: Option<nat>)
    ensures r.None? <==> forall k :: 0 <= k < |fleet| ==> fleet[k].status != SafeArrival
    ensures r.Some? ==> r.value < |fleet| && fleet[r.value].status == SafeArrival
                        && forall k :: 0 <= k < r.value ==> fleet[k].status != SafeArrival
  {
    FirstArrivedFrom(fleet, 0)
  }

  function FirstArrivedFrom(fleet: seq<Vehicle>, i: nat): (r: Option<nat>)
    requires i <= |fleet|
    requires forall k :: 0 <= k < i ==> fleet[k].status != SafeArrival
    decreases |fleet| - i
    ensures r.None? <==> forall k :: 0 <= k < |fleet| ==> fleet[k].status != SafeArrival
    ensures r.Some? ==> r.value < |fleet| && fleet[r.value].status == SafeArrival
                        && forall k :: 0 <= k < r.value ==> fleet[k].status != SafeArrival
  {
    if i == |fleet| then None
    else if fleet[i].status == SafeArrival then Some(i)
    else FirstArrivedFrom(fleet, i + 1)
  }

  /** The arrival detector: the first arrived vehicle, if it is still in the
      rerouted set, leaves it and its plate becomes the notification. */
  function Arrive(s: SimState): (r: SimState)
    ensures r.fleet == s.fleet && r.alert == s.alert && r.lastBeep == s.lastBeep && r.audioEnabled == s.audioEnabled
    ensures match FirstArrived(s.fleet)
            case None => r == s
            case Some(i) =>
              if s.fleet[i].id in s.rerouted
              then r.rerouted == s.rerouted - {s.fleet[i].id} && r.notification == Some(s.fleet[i].plate)
              else r == s
  {
    match FirstArrived(s.fleet)
    case None => s
    case Some(i) =>
      var v := s.fleet[i];
      if v.id in s.rerouted then s.(rerouted := s.rerouted - {v.id}, notification := Some(v.plate))
      else s
  }

  /** A whole timer period: tick, then the arrival detector on the new state. */
  function Step(s: SimState, now: int): (r: SimState)
    ensures |r.fleet| == |s.fleet| && FleetIds(r.fleet) == FleetIds(s.fleet)
    ensures forall k :: 0 <= k < |s.fleet| ==> r.fleet[k] == StepVehicle(s.fleet[k], s.rerouted)
    ensures r.alert == DetectProximity(r.fleet, RiskZones, s.rerouted)
    ensures AlertConsistent(r)
    ensures r.rerouted <= s.rerouted && r.audioEnabled == s.audioEnabled
    ensures r.lastBeep != s.lastBeep <==> r.alert.Some? && s.audioEnabled && now - s.lastBeep >= DebounceMs
    ensures r.lastBeep != s.lastBeep ==> r.lastBeep == now
    ensures r.rerouted == s.rerouted ==> r.notification == s.notification
    ensures r.rerouted != s.rerouted ==>
              && FirstArrived(r.fleet).Some?
              && var v := r.fleet[FirstArrived(r.fleet).value];
                 r.rerouted == s.rerouted - {v.id} && r.notification == Some(v.plate)
    ensures match FirstArrived(r.fleet)
            case None => r.rerouted == s.rerouted && r.notification == s.notification
            case Some(i) =>
              if r.fleet[i].id in s.rerouted
              then r.rerouted == s.rerouted - {r.fleet[i].id} && r.notification == Some(r.fleet[i].plate)
              else r.rerouted == s.rerouted && r.notification == s.notification
  {
    AlertConsistentPreserved(s, ScenarioVehicle, now);
    Arrive(Tick(s, now))
  }

  /** A sequence of timer periods, the last of `times` applied last. The
      fleet keeps its vehicles in order, the rerouted set only shrinks, and
      after at least one period the alert never names a rerouted vehicle. */
  function Simulate(s: SimState, times: seq<int>): (r: SimState)
    decreases |times|
    ensures |r.fleet| == |s.fleet| && FleetIds(r.fleet) == FleetIds(s.fleet)
    ensures r.rerouted <= s.rerouted && r.audioEnabled == s.audioEnabled
    ensures |times| > 0 ==> AlertConsistent(r)
  {
    if |times| == 0 then s else Step(Simulate(s, times[..|times| - 1]), times[|times| - 1])
  }

  /** Running two batches of periods one after the other is running them as one. */
  lemma {:induction false} SimulateConcat(s: SimState, a: seq<int>, b: seq<int>)
    decreases |b|
    ensures Simulate(s, a + b) == Simulate(Simulate(s, a), b)
  {
    if |b| == 0 {
      assert a + b == a;
    } else {
      var n := |b|;
      assert (a + b)[..|a + b| - 1] == a + b[..n - 1];
      assert (a + b)[|a + b| - 1] == b[n - 1];
      SimulateConcat(s, a, b[..n - 1]);
    }
  }

  /** Whether the period ending at `times[k]` played the alert sound. */
  predicate BeepAt(s: SimState, times: seq<int>, k: nat)
    requires k < |times|
  {
    Simulate(s, times[..k + 1]).lastBeep != Simulate(s, times[..k]).lastBeep
  }

  predicate NonDecreasing(times: seq<int>) {
    forall i, j :: 0 <= i <= j < |times| ==> times[i] <= times[j]
  }

  /** The recorded beep time after each prefix of the periods. */
  function BeepTimes(s: SimState, times: seq<int>): (ls: seq<int>)
    ensures |ls| == |times| + 1
    ensures forall k :: 0 <= k <= |times| ==> ls[k] == Simulate(s, times[..k]).lastBeep
  {
    seq(|times| + 1, k requires 0 <= k <= |times| => Simulate(s, times[..k]).lastBeep)
  }

  /** Period `k` either keeps the recorded beep time or sets it to `times[k]`,
      and it sets it only when the debounce since the recorded time has run out. */
  lemma BeepTimesStep(s: SimState, times: seq<int>, k: nat)
    requires k < |times|
    ensures var ls := BeepTimes(s, times);
            && (ls[k + 1] == ls[k] || ls[k + 1] == times[k])
            && (BeepAt(s, times, k) ==> ls[k + 1] == times[k] && times[k] - ls[k] >= DebounceMs)
  {
    assert times[..k + 1][..k] == times[..k];
  }

  /** Over integers: once a recorded time has been set to `times[a]`, later
      records never fall below it when each is kept or set to a later time. */
  lemma {:induction false} RecordedAfter(ls: seq<int>, times: seq<int>, a: nat, k: nat)
    requires |ls| == |times| + 1 && NonDecreasing(times)
    requires forall j :: 0 <= j < |times| ==> ls[j + 1] == ls[j] || ls[j + 1] == times[j]
    requires a < k <= |times| && ls[a + 1] == times[a]
    decreases k
    ensures ls[k] >= times[a]
  {
    if k > a + 1 {
      RecordedAfter(ls, times, a, k - 1);
      assert ls[k] == ls[k - 1] || ls[k] == times[k - 1];
      assert times[a] <= times[k - 1];
    }
  }

  /** Over a timer whose clock never runs backwards, any two periods that
      play the alert sound are at least 2000 ms apart. */
  lemma BeepsSpaced(s: SimState, times: seq<int>, a: nat, b: nat)
    requires NonDecreasing(times) && a < b < |times|
    requires BeepAt(s, times, a) && BeepAt(s, times, b)
    ensures times[b] - times[a] >= DebounceMs
  {
    var ls := BeepTimes(s, times);
    forall j | 0 <= j < |times|
      ensures ls[j + 1] == ls[j] || ls[j + 1] == times[j]
    {
      BeepTimesStep(s, times, j);
    }
    BeepTimesStep(s, times, a);
    BeepTimesStep(s, times, b);
    RecordedAfter(ls, times, a, b);
  }

  /** No transition can make two vehicles share an id, so every state reached
      from the seed state names each vehicle once. */
  lemma DistinctIdsPreserved(s: SimState, id: string, now: int)
    requires DistinctIds(s.fleet)
    ensures DistinctIds(Tick(s, now).fleet)
    ensures DistinctIds(Arrive(s).fleet)
    ensures DistinctIds(Reroute(s, id).fleet)
    ensures DistinctIds(Step(s, now).fleet)
  {
    DistinctIdsByIds(Tick(s, now).fleet, s.fleet);
    DistinctIdsByIds(Step(s, now).fleet, s.fleet);
  }

  /** Every state the timer reaches from the seed state names each vehicle once. */
  lemma ReachableDistinct(times: seq<int>)
    ensures DistinctIds(Simulate(Initial, times).fleet)
  {
    InitialFleetDistinct();
    DistinctIdsByIds(Simulate(Initial, times).fleet, Initial.fleet);
  }

  /** After a tick the alert slot is empty exactly when no vehicle outside the
      rerouted set and not yet arrived is within 0.04 of a CRITICAL or WARNING
      zone, and otherwise names the last such pair in fleet-then-zone order. */
  lemma TickAlert(s: SimState, now: int)
    ensures var r := Tick(s, now);
            && (r.alert.None? <==> !AnyQualifying(r.fleet, RiskZones, s.rerouted))
            && (r.alert.Some? ==> exists i, j :: IsLastQualifying(r.fleet, RiskZones, s.rerouted, i, j)
                                                 && r.alert == Some(Alert(r.fleet[i].id, RiskZones[j].id)))
  {
    var r := Tick(s, now);
    DetectProximitySpec(r.fleet, RiskZones, s.rerouted);
  }

  /** Rerouting twice is rerouting once. */
  lemma RerouteIdempotent(s: SimState, id: string)
    ensures Reroute(Reroute(s, id), id) == Reroute(s, id)
  {
  }

  /** Running the detector again right away changes nothing: an arrival is
      announced once per reroute. */
  lemma ArriveIdempotent(s: SimState)
    ensures Arrive(Arrive(s)) == Arrive(s)
  {
  }

  /** Once a vehicle is rerouted, the next tick never alerts about it. */
  lemma RerouteSilences(s: SimState, id: string, now: int)
    ensures var r := Tick(Reroute(s, id), now);
            r.alert.Some? ==> r.alert.value.vehicleId != id
  {
    var s' := Reroute(s, id);
    var r := Tick(s', now);
    TickAlert(s', now);
    if r.alert.Some? {
      var i, j :| IsLastQualifying(r.fleet, RiskZones, s'.rerouted, i, j)
                  && r.alert == Some(Alert(r.fleet[i].id, RiskZones[j].id));
    }
  }

  /** The standing alert never names a vehicle in the rerouted set. */
  predicate AlertConsistent(s: SimState) {
    s.alert.Some? ==> s.alert.value.vehicleId !in s.rerouted
  }

  /** Every transition keeps the alert consistent; a tick even establishes it. */
  lemma AlertConsistentPreserved(s: SimState, id: string, now: int)
    ensures AlertConsistent(Tick(s, now))
    ensures AlertConsistent(Reroute(s, id))
    ensures AlertConsistent(s) ==> AlertConsistent(Arrive(s))
  {
    var r := Tick(s, now);
    TickAlert(s, now);
    if r.alert.Some? {
      var i, j :| IsLastQualifying(r.fleet, RiskZones, s.rerouted, i, j)
                  && r.alert == Some(Alert(r.fleet[i].id, RiskZones[j].id));
    }
  }
}
