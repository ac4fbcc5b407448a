/** The proximity detector and its rate-limited alert sound. After each motion
    pass the fleet is scanned vehicle by vehicle, zone by zone, and the single
    alert slot keeps the last (vehicle, zone) pair that was close enough. */
module Proximity {
  import opened Wrappers
  import opened FleetModel

  /** The alert radius is 0.04 degrees; distances are compared squared. */
  const AlertRadiusSquared: real := 0.0016

  function DistSq(v: Vehicle, z: Zone): real {
    (v.lat - z.lat) * (v.lat - z.lat) + (v.lng - z.lng) * (v.lng - z.lng)
  }

  /** Only CRITICAL and WARNING zones raise alerts; MODERATE ones never do. */
  predicate Alerting(z: Zone) {
    z.level == Critical || z.level == Warning
  }

  /** Reference definition: the pair (v, z) is one the detector must report. */
  predicate Qualifies(v: Vehicle, z: Zone, rerouted: set<string>) {
    && v.id !in rerouted
    && v.status != SafeArrival
    && DistSq(v, z) < AlertRadiusSquared
    && Alerting(z)
  }

  /** The inner zone loop for one vehicle, from zone `j` on, overwriting `acc`. */
  function ScanZones(v: Vehicle, zones: seq<Zone>, j: nat, acc: Option<Alert>): Option<Alert>
    requires j <= |zones|
    decreases |zones| - j
  {
    if j == |zones| then acc
    else
      var z := zones[j];
      var acc' := if DistSq(v, z) < AlertRadiusSquared && Alerting(z) then Some(Alert(v.id, z.id)) else acc;
      ScanZones(v, zones, j + 1, acc')
  }

  /** The outer vehicle loop from vehicle `i` on; handled and arrived vehicles are skipped. */
  function ScanFleet(fleet: seq<Vehicle>, zones: seq<Zone>, rerouted: set<string>, i: nat, acc: Option<Alert>): Option<Alert>
    requires i <= |fleet|
    decreases |fleet| - i
  {
    if i == |fleet| then acc
    else
      var v := fleet[i];
      var acc' := if v.id in rerouted || v.status == SafeArrival then acc else ScanZones(v, zones, 0, acc);
      ScanFleet(fleet, zones, rerouted, i + 1, acc')
  }

  /** The alert slot computed by one tick's proximity pass. */
  function DetectProximity(fleet: seq<Vehicle>, zones: seq<Zone>, rerouted: set<string>): Option<Alert> {
    ScanFleet(fleet, zones, rerouted, 0, None)
  }

  predicate AnyQualifying(fleet: seq<Vehicle>, zones: seq<Zone>, rerouted: set<string>) {
    exists i, j :: 0 <= i < |fleet| && 0 <= j < |zones| && Qualifies(fleet[i], zones[j], rerouted)
  }

  /** (i, j) qualifies and no qualifying pair comes after it in fleet-then-zone order. */
  predicate IsLastQualifying(fleet: seq<Vehicle>, zones: seq<Zone>, rerouted: set<string>, i: int, j: int) {
    && 0 <= i < |fleet| && 0 <= j < |zones|
    && Qualifies(fleet[i], zones[j], rerouted)
    && forall i', j' :: 0 <= i' < |fleet| && 0 <= j' < |zones| && Qualifies(fleet[i'], zones[j'], rerouted)
         ==> i' < i || (i' == i && j' <= j)
  }

  predicate Near(v: Vehicle, z: Zone) {
    DistSq(v, z) < AlertRadiusSquared && Alerting(z)
  }

  lemma {:induction false} ScanZonesSpec(v: Vehicle, zones: seq<Zone>, j: nat, acc: Option<Alert>)
    requires j <= |zones|
    decreases |zones| - j
    ensures (forall k :: j <= k < |zones| ==> !Near(v, zones[k])) ==> ScanZones(v, zones, j, acc) == acc
    ensures (exists k :: j <= k < |zones| && Near(v, zones[k])) ==>
              exists k :: && j <= k < |zones| && Near(v, zones[k])
                          && (forall k' :: k < k' < |zones| ==> !Near(v, zones[k']))
                          && ScanZones(v, zones, j, acc) == Some(Alert(v.id, zones[k].id))
  {
    if j < |zones| {
      var z := zones[j];
      var acc' := if Near(v, z) then Some(Alert(v.id, z.id)) else acc;
      ScanZonesSpec(v, zones, j + 1, acc');
      if (exists k :: j <= k < |zones| && Near(v, zones[k])) && !(exists k :: j + 1 <= k < |zones| && Near(v, zones[k])) {
        assert Near(v, zones[j]);
        assert forall k' :: j < k' < |zones| ==> !Near(v, zones[k']);
      }
    }
  }

  predicate Eligible(v: Vehicle, rerouted: set<string>) {
    v.id !in rerouted && v.status != SafeArrival
  }

  /** Vehicle `v` contributes some pair to the scan. */
  predicate Contributes(v: Vehicle, zones: seq<Zone>, rerouted: set<string>) {
    Eligible(v, rerouted) && exists k :: 0 <= k < |zones| && Near(v, zones[k])
  }

  /** Once a near zone lies ahead, the incoming slot value is overwritten. */
  lemma {:induction false} ScanZonesForgets(v: Vehicle, zones: seq<Zone>, j: nat, acc: Option<Alert>, acc2: Option<Alert>)
    requires j <= |zones|
    requires exists k :: j <= k < |zones| && Near(v, zones[k])
    decreases |zones| - j
    ensures ScanZones(v, zones, j, acc) == ScanZones(v, zones, j, acc2)
  {
    var z := zones[j];
    if !Near(v, z) {
      ScanZonesForgets(v, zones, j + 1, acc, acc2);
    }
  }

  lemma {:induction false} ScanFleetNone(fleet: seq<Vehicle>, zones: seq<Zone>, rerouted: set<string>, i: nat, acc: Option<Alert>)
    requires i <= |fleet|
    requires forall a :: i <= a < |fleet| ==> !Contributes(fleet[a], zones, rerouted)
    decreases |fleet| - i
    ensures ScanFleet(fleet, zones, rerouted, i, acc) == acc
  {
    if i < |fleet| {
      ScanZonesSpec(fleet[i], zones, 0, acc);
      ScanFleetNone(fleet, zones, rerouted, i + 1, acc);
    }
  }

  lemma {:induction false} ScanFleetLast(fleet: seq<Vehicle>, zones: seq<Zone>, rerouted: set<string>, i: nat, a: nat, acc: Option<Alert>)
    requires i <= a < |fleet|
    requires Contributes(fleet[a], zones, rerouted)
    requires forall a' :: a < a' < |fleet| ==> !Contributes(fleet[a'], zones, rerouted)
    decreases |fleet| - i
    ensures ScanFleet(fleet, zones, rerouted, i, acc) == ScanZones(fleet[a], zones, 0, None)
  {
    var v := fleet[i];
    var acc' := if v.id in rerouted || v.status == SafeArrival then acc else ScanZones(v, zones, 0, acc);
    if i == a {
      ScanZonesForgets(v, zones, 0, acc, None);
      ScanFleetNone(fleet, zones, rerouted, i + 1, acc');
    } else {
      ScanFleetLast(fleet, zones, rerouted, i + 1, a, acc');
    }
  }

  /** The alert slot is empty exactly when no eligible vehicle is within 0.04
      of a CRITICAL or WARNING zone; otherwise it holds the last qualifying
      (vehicle, zone) pair in fleet-then-zone order. */
  lemma DetectProximitySpec(fleet: seq<Vehicle>, zones: seq<Zone>, rerouted: set<string>)
    ensures DetectProximity(fleet, zones, rerouted).None? <==> !AnyQualifying(fleet, zones, rerouted)
    ensures DetectProximity(fleet, zones, rerouted).Some? ==>
              exists i, j :: IsLastQualifying(fleet, zones, rerouted, i, j)
                             && DetectProximity(fleet, zones, rerouted) == Some(Alert(fleet[i].id, zones[j].id))
  {
    if exists a :: 0 <= a < |fleet| && Contributes(fleet[a], zones, rerouted) {
      var a := LastContributor(fleet, zones, rerouted, |fleet|);
      ScanFleetLast(fleet, zones, rerouted, 0, a, None);
      var v := fleet[a];
      ScanZonesSpec(v, zones, 0, None);
      var k :| && 0 <= k < |zones| && Near(v, zones[k])
               && (forall k' :: k < k' < |zones| ==> !Near(v, zones[k']))
               && ScanZones(v, zones, 0, None) == Some(Alert(v.id, zones[k].id));
      assert Qualifies(fleet[a], zones[k], rerouted);
      forall i', j' | 0 <= i' < |fleet| && 0 <= j' < |zones| && Qualifies(fleet[i'], zones[j'], rerouted)
        ensures i' < a || (i' == a && j' <= k)
      {
        assert Contributes(fleet[i'], zones, rerouted);
      }
      assert IsLastQualifying(fleet, zones, rerouted, a, k);
    } else {
      ScanFleetNone(fleet, zones, rerouted, 0, None);
      forall i, j | 0 <= i < |fleet| && 0 <= j < |zones|
        ensures !Qualifies(fleet[i], zones[j], rerouted)
      {
        assert !Contributes(fleet[i], zones, rerouted);
      }
    }
  }

  /** The last vehicle below `n` that contributes a pair. */
  lemma {:induction false} LastContributor(fleet: seq<Vehicle>, zones: seq<Zone>, rerouted: set<string>, n: nat) returns (a: nat)
    requires n <= |fleet|
    requires exists a :: 0 <= a < n && Contributes(fleet[a], zones, rerouted)
    ensures a < n && Contributes(fleet[a], zones, rerouted)
    ensures forall a' :: a < a' < n ==> !Contributes(fleet[a'], zones, rerouted)
  {
    if Contributes(fleet[n - 1], zones, rerouted) {
      a := n - 1;
    } else {
      a := LastContributor(fleet, zones, rerouted, n - 1);
    }
  }

  /** The alert never names a MODERATE zone, a rerouted vehicle or an arrived one. */
  lemma AlertIsEligible(fleet: seq<Vehicle>, zones: seq<Zone>, rerouted: set<string>)
    ensures match DetectProximity(fleet, zones, rerouted)
            case None => true
            case Some(a) =>
              && a.vehicleId !in rerouted
              && (exists i :: 0 <= i < |fleet| && fleet[i].id == a.vehicleId && fleet[i].status != SafeArrival)
              && (exists j :: 0 <= j < |zones| && zones[j].id == a.zoneId && zones[j].level != Moderate)
  {
    DetectProximitySpec(fleet, zones, rerouted);
  }

  // ---------------------------------------------------------------------
  // Alert sound debounce

  const DebounceMs: int := 2000

  /** Outcome of one call of the alert-sound routine. */
  datatype Beep = Beep(emitted: bool, lastBeep: int)

  /** Decides whether a triggered alert sound is played at time `now` (ms);
      a suppressed trigger leaves the last-beep time where it was. */
  function AlertSound(audioEnabled: bool, lastBeep: int, now: int): (b: Beep)
    ensures b.emitted <==> audioEnabled && now - lastBeep >= DebounceMs
    ensures b.emitted ==> b.lastBeep == now
    ensures !b.emitted ==> b.lastBeep == lastBeep
  {
    if !audioEnabled then Beep(false, lastBeep)
    else if now - lastBeep < DebounceMs then Beep(false, lastBeep)
    else Beep(true, now)
  }

  /** Two triggers less than 2000 ms apart play at most one sound. */
  lemma AtMostOneBeepPerWindow(audioEnabled: bool, lastBeep: int, t1: int, t2: int)
    requires t1 <= t2 < t1 + DebounceMs
    ensures var b1 := AlertSound(audioEnabled, lastBeep, t1);
            !(b1.emitted && AlertSound(audioEnabled, b1.lastBeep, t2).emitted)
  {
  }

  /** The times at which a sequence of triggers actually played a sound. */
  function Emissions(audioEnabled: bool, lastBeep: int, times: seq<int>): seq<int>
    decreases |times|
  {
    if |times| == 0 then []
    else
      var b := AlertSound(audioEnabled, lastBeep, times[0]);
      (if b.emitted then [times[0]] else []) + Emissions(audioEnabled, b.lastBeep, times[1..])
  }

  /** Over any run of triggers, consecutive played sounds are at least 2000 ms
      apart, the first at least 2000 ms after the initial last-beep time; with
      audio off nothing plays. */
  lemma {:induction false} EmissionsSpaced(audioEnabled: bool, lastBeep: int, times: seq<int>)
    decreases |times|
    ensures var e := Emissions(audioEnabled, lastBeep, times);
            && (|e| > 0 ==> e[0] - lastBeep >= DebounceMs)
            && (forall k :: 0 < k < |e| ==> e[k] - e[k - 1] >= DebounceMs)
            && (!audioEnabled ==> e == [])
  {
    if |times| > 0 {
      var b := AlertSound(audioEnabled, lastBeep, times[0]);
      EmissionsSpaced(audioEnabled, b.lastBeep, times[1..]);
      var rest := Emissions(audioEnabled, b.lastBeep, times[1..]);
      var e := Emissions(audioEnabled, lastBeep, times);
      if b.emitted {
        assert e == [times[0]] + rest;
        assert forall k :: 0 < k < |e| ==> e[k] == rest[k - 1];
      } else {
        assert e == rest;
      }
    }
  }
}
