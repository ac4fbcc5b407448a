/** Entities and seed data of the fleet simulation in the map feature:
    vehicles, risk zones, the safe haven and the projection bounding box. */
module FleetModel {
  import opened Wrappers

  /** The six vehicle statuses the map feature uses. */
  datatype Status = Moving | Idle | RiskWarning | CriticalStop | Rerouted | SafeArrival

  /** Hazard severity; only Critical and Warning zones ever raise an alert. */
  datatype Level = Critical | Moderate | Warning

  datatype ZoneKind = Flood | Storm | Congestion | Accident

  datatype Vehicle = Vehicle(
    id: string,
    plate: string,
    lat: real,
    lng: real,
    status: Status,
    driver: string,
    cargo: string,
    destination: string,
    speed: real,
    heading: real)

  datatype Zone = Zone(
    id: string,
    kind: ZoneKind,
    lat: real,
    lng: real,
    level: Level,
    value: string,
    desc: string,
    locationName: string,
    advice: string)

  /** The single alert slot: which vehicle is near which zone. */
  datatype Alert = Alert(vehicleId: string, zoneId: string)

  /** Geographic box mapped onto the 0..100 display plane. */
  const MinLat: real := 12.80
  const MaxLat: real := 13.50
  const MinLng: real := 100.80
  const MaxLng: real := 101.20

  /** The rally point a rerouted vehicle is driven toward. */
  const SafeHavenLat: real := 13.40
  const SafeHavenLng: real := 100.95
  const SafeHavenName: string := "จุดพักรถปลอดภัย (Safe Zone)"

  /** The only vehicle the simulation moves, and the hazard it drives into. */
  const ScenarioVehicle: string := "T-04"
  const ScenarioHazard: string := "Z-03"

  const Z01 := Zone("Z-01", Congestion, 13.08, 100.90, Moderate, "รถติดหนัก",
    "การจราจรหนาแน่นหน้าท่าเรือแหลมฉบัง เฟส 2", "ถ.สุขุมวิท (แหลมฉบัง)",
    "ควรใช้เส้นทางเลี่ยง หรือเผื่อเวลา 30 นาที")
  const Z02 := Zone("Z-02", Flood, 13.35, 101.02, Warning, "น้ำท่วม 20cm",
    "ฝนตกหนักระบายไม่ทัน ผิวจราจรมีน้ำขัง", "บายพาสเลี่ยงเมืองชลบุรี",
    "รถเล็กควรหลีกเลี่ยง ใช้ทางขนานมอเตอร์เวย์")
  const Z03 := Zone("Z-03", Accident, 13.25, 101.08, Critical, "อุบัติเหตุรุนแรง",
    "รถบรรทุกพลิกคว่ำ กีดขวาง 2 ช่องทางขวา", "มอเตอร์เวย์ สาย 7 (กม.85)",
    "หยุดรถทันที หรือลดความเร็วเหลือ 30 กม./ชม.")

  const RiskZones: seq<Zone> := [Z01, Z02, Z03]

  const T04 := Vehicle("T-04", "71-5567", 13.15, 101.00, Moving, "ปิติ สุขใจ",
    "ชิ้นส่วนยานยนต์", "กรุงเทพฯ (Motorway)", 90.0, 45.0)

  const InitialFleet: seq<Vehicle> := [
    Vehicle("T-01", "70-4582", 13.15, 101.02, Moving, "สมชาย มีสุข", "อิเล็กทรอนิกส์", "อมตะซิตี้", 85.0, 340.0),
    Vehicle("T-02", "72-9914", 13.09, 100.89, Idle, "วิชัย มั่นคง", "ตู้คอนเทนเนอร์", "ท่าเรือ A2", 0.0, 180.0),
    Vehicle("T-03", "64-1023", 13.19, 101.04, RiskWarning, "อำนาจ รักถิ่น", "เคมีภัณฑ์", "ระยอง", 20.0, 160.0),
    T04,
    Vehicle("T-05", "70-1111", 13.16, 101.03, Moving, "ทดสอบ ระบบ", "พัสดุ", "ชลบุรี", 80.0, 330.0),
    Vehicle("T-06", "70-2222", 13.085, 100.895, Idle, "สมหมาย", "ตู้เย็น", "ท่าเรือ", 0.0, 0.0)
  ]

  /** The first zone with the given id, as `Array.prototype.find` returns it. */
  function FindZone(zones: seq<Zone>, id: string): (r: Option<Zone>)
    ensures r.None? <==> forall k :: 0 <= k < |zones| ==> zones[k].id != id
    ensures r.Some? ==> exists k :: 0 <= k < |zones| && zones[k] == r.value
                          && zones[k].id == id
                          && forall k' :: 0 <= k' < k ==> zones[k'].id != id
  {
    if |zones| == 0 then None
    else if zones[0].id == id then Some(zones[0])
    else
      var r := FindZone(zones[1..], id);
      assert forall k :: 1 <= k < |zones| ==> zones[k] == zones[1..][k - 1];
      r
  }

  /** Every vehicle id occurs once in the fleet. */
  predicate DistinctIds(fleet: seq<Vehicle>) {
    forall a, b :: 0 <= a < b < |fleet| ==> fleet[a].id != fleet[b].id
  }

  /** The fleet's vehicle ids in display order. */
  function FleetIds(fleet: seq<Vehicle>): seq<string> {
    seq(|fleet|, k requires 0 <= k < |fleet| => fleet[k].id)
  }

  /** Whether a fleet's ids are distinct depends on its ids alone. */
  lemma DistinctIdsByIds(a: seq<Vehicle>, b: seq<Vehicle>)
    requires FleetIds(a) == FleetIds(b)
    ensures DistinctIds(a) <==> DistinctIds(b)
  {
    assert |a| == |FleetIds(a)| == |FleetIds(b)| == |b|;
    forall k | 0 <= k < |a|
      ensures a[k].id == b[k].id
    {
      assert FleetIds(a)[k] == a[k].id && FleetIds(b)[k] == b[k].id;
    }
  }

  /** The seed fleet names every vehicle once. */
  lemma InitialFleetDistinct()
    ensures DistinctIds(InitialFleet)
  {
  }
}
