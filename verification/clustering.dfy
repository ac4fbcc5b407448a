/** Marker decluttering for the map: zoomed in, every vehicle is its own
    marker; zoomed out, vehicles are grouped greedily in fleet order around the
    first not-yet-grouped vehicle, taking every other not-yet-grouped vehicle
    whose projected position lies within 5 display units of it. */
module Clustering {
  import opened FleetModel
  import opened Projection

  /** The zoom level the map opens at. */
  const InitialZoom: real := 1.2
  /** Above this zoom level every vehicle gets its own marker. */
  const ClusterZoom: real := 1.8
  /** The grouping radius is 5 display units; distances are compared squared. */
  const ClusterRadiusSquared: real := 25.0

  datatype Marker = Single(vehicle: Vehicle) | Cluster(members: seq<Vehicle>, anchor: Pos)

  function PosOf(v: Vehicle): Pos {
    GetPos(v.lat, v.lng)
  }

  function PlaneDistSq(a: Pos, b: Pos): real {
    (a.left - b.left) * (a.left - b.left) + (a.top - b.top) * (a.top - b.top)
  }

  predicate Close(a: Pos, b: Pos) {
    PlaneDistSq(a, b) < ClusterRadiusSquared
  }

  /** The inner scan for the group led by vehicle `i`, from index `j` on:
      the indices it takes, and the processed ids afterwards. */
  function Gather(fleet: seq<Vehicle>, i: nat, anchor: Pos, j: nat, done: set<string>): (r: (seq<nat>, set<string>))
    requires i < |fleet| && j <= |fleet|
    decreases |fleet| - j
    ensures forall a :: 0 <= a < |r.0| ==> j <= r.0[a] < |fleet| && r.0[a] != i
  {
    if j == |fleet| then ([], done)
    else if i == j || fleet[j].id in done then Gather(fleet, i, anchor, j + 1, done)
    else if Close(anchor, PosOf(fleet[j])) then
      var (rest, done') := Gather(fleet, i, anchor, j + 1, done + {fleet[j].id});
      ([j] + rest, done')
    else Gather(fleet, i, anchor, j + 1, done)
  }

  /** The outer scan from index `i` on: each group as its leader's index
      followed by the indices it took, in the order the scan found them. */
  function Groups(fleet: seq<Vehicle>, i: nat, done: set<string>): (gs: seq<seq<nat>>)
    requires i <= |fleet|
    decreases |fleet| - i
    ensures forall p :: 0 <= p < |gs| ==> |gs[p]| > 0 && i <= gs[p][0]
    ensures forall p, a :: 0 <= p < |gs| && 0 <= a < |gs[p]| ==> gs[p][a] < |fleet|
  {
    if i == |fleet| then []
    else if fleet[i].id in done then Groups(fleet, i + 1, done)
    else
      var (taken, done') := Gather(fleet, i, PosOf(fleet[i]), 0, done + {fleet[i].id});
      [[i] + taken] + Groups(fleet, i + 1, done')
  }

  function Vehicles(fleet: seq<Vehicle>, g: seq<nat>): (vs: seq<Vehicle>)
    requires forall a :: 0 <= a < |g| ==> g[a] < |fleet|
    ensures |vs| == |g| && forall a :: 0 <= a < |g| ==> vs[a] == fleet[g[a]]
  {
    seq(|g|, a requires 0 <= a < |g| => fleet[g[a]])
  }

  function Members(m: Marker): seq<Vehicle> {
    match m
    case Single(v) => [v]
    case Cluster(vs, _) => vs
  }

  /** A group of one is a plain marker; a larger group is a cluster anchored at its leader. */
  function ToMarker(fleet: seq<Vehicle>, g: seq<nat>): (m: Marker)
    requires |g| > 0 && forall a :: 0 <= a < |g| ==> g[a] < |fleet|
    ensures m.Single? <==> |g| == 1
    ensures Members(m) == Vehicles(fleet, g)
    ensures m.Cluster? ==> m.anchor == PosOf(fleet[g[0]])
  {
    if |g| > 1 then Cluster(Vehicles(fleet, g), PosOf(fleet[g[0]])) else Single(fleet[g[0]])
  }

  // ---------------------------------------------------------------------
  // Index bookkeeping

  function SetOf(s: seq<nat>): set<nat> {
    set x | x in s
  }

  /** Every index that occurs in some group. */
  function Elements(gs: seq<seq<nat>>): set<nat> {
    if |gs| == 0 then {} else SetOf(gs[0]) + Elements(gs[1..])
  }

  predicate Increasing(s: seq<nat>) {
    forall a, b :: 0 <= a < b < |s| ==> s[a] < s[b]
  }

  /** The ids of the vehicles at the given indices. */
  function Ids(fleet: seq<Vehicle>, d: set<nat>): set<string> {
    set k | k in d && k < |fleet| :: fleet[k].id
  }

  lemma IdsMember(fleet: seq<Vehicle>, d: set<nat>, k: nat)
    requires DistinctIds(fleet) && k < |fleet|
    ensures fleet[k].id in Ids(fleet, d) <==> k in d
  {
    if fleet[k].id in Ids(fleet, d) {
      var k' :| k' in d && k' < |fleet| && fleet[k'].id == fleet[k].id;
      assert k' == k;
    }
  }

  lemma IdsAdd(fleet: seq<Vehicle>, d: set<nat>, k: nat)
    requires k < |fleet|
    ensures Ids(fleet, d + {k}) == Ids(fleet, d) + {fleet[k].id}
  {
  }

  lemma ElementsIndex(gs: seq<seq<nat>>, p: nat, a: nat)
    requires p < |gs| && a < |gs[p]|
    ensures gs[p][a] in Elements(gs)
  {
    if p > 0 {
      ElementsIndex(gs[1..], p - 1, a);
    }
  }

  lemma ElementsMember(gs: seq<seq<nat>>, x: nat)
    requires x in Elements(gs)
    ensures exists p, a :: 0 <= p < |gs| && 0 <= a < |gs[p]| && gs[p][a] == x
  {
    if x !in SetOf(gs[0]) {
      ElementsMember(gs[1..], x);
      var p, a :| 0 <= p < |gs[1..]| && 0 <= a < |gs[1..][p]| && gs[1..][p][a] == x;
      assert gs[p + 1][a] == x;
    } else {
      var a :| 0 <= a < |gs[0]| && gs[0][a] == x;
    }
  }

  // ---------------------------------------------------------------------
  // The inner scan

  /** The inner scan takes, in increasing order, exactly the unprocessed
      vehicles from `j` on that are close to the anchor, and marks them processed. */
  predicate GatherOk(fleet: seq<Vehicle>, anchor: Pos, j: nat, d: set<nat>, r: (seq<nat>, set<string>))
  {
    && Increasing(r.0)
    && (forall a :: 0 <= a < |r.0| ==> j <= r.0[a] < |fleet| && r.0[a] !in d && Close(anchor, PosOf(fleet[r.0[a]])))
    && (forall x: nat :: j <= x < |fleet| && x !in d && Close(anchor, PosOf(fleet[x])) ==> x in r.0)
    && r.1 == Ids(fleet, d + SetOf(r.0))
  }

  /** The inner scan takes, in increasing order, exactly the unprocessed
      vehicles from `j` on that are close to the anchor, and marks them processed. */
  lemma {:induction false} GatherSpec(fleet: seq<Vehicle>, i: nat, anchor: Pos, j: nat, d: set<nat>)
    requires DistinctIds(fleet) && i < |fleet| && j <= |fleet| && i in d
    decreases |fleet| - j
    ensures GatherOk(fleet, anchor, j, d, Gather(fleet, i, anchor, j, Ids(fleet, d)))
  {
    if j == |fleet| {
      assert SetOf([]) == {};
      assert d + SetOf([]) == d;
    } else {
      IdsMember(fleet, d, j);
      if i == j || fleet[j].id in Ids(fleet, d) || !Close(anchor, PosOf(fleet[j])) {
        GatherSpec(fleet, i, anchor, j + 1, d);
        GatherOkSkip(fleet, anchor, j, d, Gather(fleet, i, anchor, j + 1, Ids(fleet, d)));
      } else {
        GatherTake(fleet, i, anchor, j, d);
      }
    }
  }

  lemma {:induction false} GatherTake(fleet: seq<Vehicle>, i: nat, anchor: Pos, j: nat, d: set<nat>)
    requires DistinctIds(fleet) && i < |fleet| && j < |fleet| && i in d && j !in d
    requires Close(anchor, PosOf(fleet[j]))
    decreases |fleet| - j, 0
    ensures GatherOk(fleet, anchor, j, d, Gather(fleet, i, anchor, j, Ids(fleet, d)))
  {
    IdsMember(fleet, d, j);
    IdsAdd(fleet, d, j);
    GatherSpec(fleet, i, anchor, j + 1, d + {j});
    var r := Gather(fleet, i, anchor, j + 1, Ids(fleet, d + {j}));
    assert Gather(fleet, i, anchor, j, Ids(fleet, d)) == ([j] + r.0, r.1);
    GatherOkCons(fleet, anchor, j, d, r);
  }

  /** A correct scan from `j + 1` is a correct scan from `j` when `j` is
      already processed or too far from the anchor. */
  lemma GatherOkSkip(fleet: seq<Vehicle>, anchor: Pos, j: nat, d: set<nat>, r: (seq<nat>, set<string>))
    requires j < |fleet| && (j in d || !Close(anchor, PosOf(fleet[j])))
    requires GatherOk(fleet, anchor, j + 1, d, r)
    ensures GatherOk(fleet, anchor, j, d, r)
  {
  }

  /** Taking `j` in front of a correct scan from `j + 1` is a correct scan from `j`. */
  lemma GatherOkCons(fleet: seq<Vehicle>, anchor: Pos, j: nat, d: set<nat>, r: (seq<nat>, set<string>))
    requires j < |fleet| && j !in d && Close(anchor, PosOf(fleet[j]))
    requires GatherOk(fleet, anchor, j + 1, d + {j}, r)
    ensures GatherOk(fleet, anchor, j, d, ([j] + r.0, r.1))
  {
    var s := [j] + r.0;
    assert forall a :: 1 <= a < |s| ==> s[a] == r.0[a - 1];
    assert SetOf(s) == {j} + SetOf(r.0);
    assert d + {j} + SetOf(r.0) == d + SetOf(s);
  }

  /** The bookkeeping half of GatherSpec, without the distances. */
  lemma GatherIndices(fleet: seq<Vehicle>, i: nat, anchor: Pos, d: set<nat>)
    requires DistinctIds(fleet) && i < |fleet| && i in d
    ensures var r := Gather(fleet, i, anchor, 0, Ids(fleet, d));
            && Increasing(r.0)
            && (forall a :: 0 <= a < |r.0| ==> r.0[a] < |fleet| && r.0[a] !in d)
            && r.1 == Ids(fleet, d + SetOf(r.0))
  {
    GatherSpec(fleet, i, anchor, 0, d);
  }

  // ---------------------------------------------------------------------
  // The outer scan

  /** The groups hold exactly the indices not in `d`. */
  ghost predicate Covers(fleet: seq<Vehicle>, d: set<nat>, gs: seq<seq<nat>>) {
    forall x: nat :: x in Elements(gs) <==> x < |fleet| && x !in d
  }

  /** Each group is a non-empty increasing run of fleet indices. */
  predicate WellFormed(fleet: seq<Vehicle>, gs: seq<seq<nat>>) {
    && (forall p :: 0 <= p < |gs| ==> |gs[p]| > 0 && Increasing(gs[p]))
    && (forall p, a :: 0 <= p < |gs| && 0 <= a < |gs[p]| ==> gs[p][a] < |fleet|)
  }

  predicate LeadersIncrease(gs: seq<seq<nat>>)
    requires forall p :: 0 <= p < |gs| ==> |gs[p]| > 0
  {
    forall p, q :: 0 <= p < q < |gs| ==> gs[p][0] < gs[q][0]
  }

  /** No index is in two groups. */
  predicate Disjoint(gs: seq<seq<nat>>) {
    forall p, q, a, b :: 0 <= p < q < |gs| && 0 <= a < |gs[p]| && 0 <= b < |gs[q]| ==> gs[p][a] != gs[q][b]
  }

  /** The groups partition the indices not in `d`: each is increasing and
      starts with its leader, leaders increase, and no index is in two groups. */
  ghost predicate Partition(fleet: seq<Vehicle>, d: set<nat>, gs: seq<seq<nat>>) {
    Covers(fleet, d, gs) && WellFormed(fleet, gs) && LeadersIncrease(gs) && Disjoint(gs)
  }

  /** The state of the outer scan when it reaches index `i`: the processed
      ids are those of the indices in `d`, which include every index before `i`. */
  predicate ScanState(fleet: seq<Vehicle>, i: nat, d: set<nat>) {
    && DistinctIds(fleet) && i <= |fleet|
    && (forall k: nat :: k < i ==> k in d)
  }

  lemma {:induction false} GroupsPartition(fleet: seq<Vehicle>, i: nat, d: set<nat>)
    requires ScanState(fleet, i, d)
    decreases |fleet| - i
    ensures Partition(fleet, d, Groups(fleet, i, Ids(fleet, d)))
    ensures forall p :: 0 <= p < |Groups(fleet, i, Ids(fleet, d))| ==> Groups(fleet, i, Ids(fleet, d))[p][0] >= i
  {
    if i < |fleet| {
      IdsMember(fleet, d, i);
      if i in d {
        GroupsPartition(fleet, i + 1, d);
      } else {
        GroupsPartitionLead(fleet, i, d);
      }
    }
  }

  lemma {:induction false} GroupsPartitionLead(fleet: seq<Vehicle>, i: nat, d: set<nat>)
    requires ScanState(fleet, i, d) && i < |fleet| && i !in d
    decreases |fleet| - i, 0
    ensures Partition(fleet, d, Groups(fleet, i, Ids(fleet, d)))
    ensures forall p :: 0 <= p < |Groups(fleet, i, Ids(fleet, d))| ==> Groups(fleet, i, Ids(fleet, d))[p][0] >= i
  {
    IdsMember(fleet, d, i);
    IdsAdd(fleet, d, i);
    var anchor := PosOf(fleet[i]);
    GatherIndices(fleet, i, anchor, d + {i});
    var r := Gather(fleet, i, anchor, 0, Ids(fleet, d + {i}));
    var d' := d + {i} + SetOf(r.0);
    GroupsPartition(fleet, i + 1, d');
    var rest := Groups(fleet, i + 1, r.1);
    assert Groups(fleet, i, Ids(fleet, d)) == [[i] + r.0] + rest;
    assert forall a :: 0 <= a < |r.0| ==> i < r.0[a];
    PartitionCons(fleet, d, i, r.0, rest);
  }

  /** Putting a new group in front of a partition of what it leaves over. */
  lemma PartitionCons(fleet: seq<Vehicle>, d: set<nat>, i: nat, ms: seq<nat>, rest: seq<seq<nat>>)
    requires i < |fleet| && i !in d && Increasing(ms)
    requires forall a :: 0 <= a < |ms| ==> i < ms[a] < |fleet| && ms[a] !in d
    requires Partition(fleet, d + {i} + SetOf(ms), rest)
    requires forall p :: 0 <= p < |rest| ==> rest[p][0] > i
    ensures Partition(fleet, d, [[i] + ms] + rest)
  {
    ConsCovers(fleet, d, i, ms, rest);
    ConsWellFormed(fleet, i, ms, rest);
    ConsDisjoint(fleet, d, i, ms, rest);
  }

  lemma ConsCovers(fleet: seq<Vehicle>, d: set<nat>, i: nat, ms: seq<nat>, rest: seq<seq<nat>>)
    requires i < |fleet| && i !in d
    requires forall a :: 0 <= a < |ms| ==> ms[a] < |fleet| && ms[a] !in d
    requires Covers(fleet, d + {i} + SetOf(ms), rest)
    ensures Covers(fleet, d, [[i] + ms] + rest)
  {
    var gs := [[i] + ms] + rest;
    assert gs[1..] == rest;
    assert SetOf([i] + ms) == {i} + SetOf(ms);
    assert Elements(gs) == SetOf([i] + ms) + Elements(rest);
  }

  lemma ConsWellFormed(fleet: seq<Vehicle>, i: nat, ms: seq<nat>, rest: seq<seq<nat>>)
    requires i < |fleet| && Increasing(ms)
    requires forall a :: 0 <= a < |ms| ==> i < ms[a] < |fleet|
    requires WellFormed(fleet, rest) && LeadersIncrease(rest)
    requires forall p :: 0 <= p < |rest| ==> rest[p][0] > i
    ensures WellFormed(fleet, [[i] + ms] + rest) && LeadersIncrease([[i] + ms] + rest)
  {
    var gs := [[i] + ms] + rest;
    assert forall p :: 1 <= p < |gs| ==> gs[p] == rest[p - 1];
  }

  lemma ConsDisjoint(fleet: seq<Vehicle>, d: set<nat>, i: nat, ms: seq<nat>, rest: seq<seq<nat>>)
    requires Covers(fleet, d + {i} + SetOf(ms), rest) && Disjoint(rest)
    ensures Disjoint([[i] + ms] + rest)
  {
    var g := [i] + ms;
    var gs := [g] + rest;
    var d' := d + {i} + SetOf(ms);
    forall p, q, a, b | 0 <= p < q < |gs| && 0 <= a < |gs[p]| && 0 <= b < |gs[q]|
      ensures gs[p][a] != gs[q][b]
    {
      assert gs[q][b] == rest[q - 1][b];
      if p == 0 {
        ElementsIndex(rest, q - 1, b);
        assert rest[q - 1][b] !in d';
        if a > 0 {
          assert g[a] == ms[a - 1];
          assert ms[a - 1] in SetOf(ms);
        }
        assert g[a] in d';
      } else {
        assert gs[p][a] == rest[p - 1][a];
      }
    }
  }

  /** Every member is close to its group's leader, and every vehicle grouped
      later is not close to an earlier group's leader. */
  ghost predicate Greedy(fleet: seq<Vehicle>, gs: seq<seq<nat>>)
    requires WellFormed(fleet, gs)
  {
    && (forall p, a :: 0 <= p < |gs| && 0 < a < |gs[p]| ==> Close(PosOf(fleet[gs[p][0]]), PosOf(fleet[gs[p][a]])))
    && (forall p, q, b :: 0 <= p < q < |gs| && 0 <= b < |gs[q]| ==> !Close(PosOf(fleet[gs[p][0]]), PosOf(fleet[gs[q][b]])))
  }

  /** Each leader is the first index not already in an earlier group. */
  ghost predicate LeaderFirst(d: set<nat>, gs: seq<seq<nat>>)
    requires forall p :: 0 <= p < |gs| ==> |gs[p]| > 0
  {
    forall p, k: nat :: 0 <= p < |gs| && k < gs[p][0] && k !in d ==> exists p' :: 0 <= p' < p && k in gs[p']
  }

  lemma GreedyCons(fleet: seq<Vehicle>, d: set<nat>, i: nat, ms: seq<nat>, rest: seq<seq<nat>>)
    requires i < |fleet| && Increasing(ms)
    requires forall a :: 0 <= a < |ms| ==> i < ms[a] < |fleet| && Close(PosOf(fleet[i]), PosOf(fleet[ms[a]]))
    requires forall x: nat :: x < |fleet| && x !in d + {i} && Close(PosOf(fleet[i]), PosOf(fleet[x])) ==> x in ms
    requires WellFormed(fleet, rest) && LeadersIncrease(rest) && Greedy(fleet, rest)
    requires Covers(fleet, d + {i} + SetOf(ms), rest)
    requires forall p :: 0 <= p < |rest| ==> rest[p][0] > i
    ensures WellFormed(fleet, [[i] + ms] + rest) && Greedy(fleet, [[i] + ms] + rest)
  {
    ConsWellFormed(fleet, i, ms, rest);
    var gs := [[i] + ms] + rest;
    assert forall p :: 1 <= p < |gs| ==> gs[p] == rest[p - 1];
    forall q, b | 0 < q < |gs| && 0 <= b < |gs[q]|
      ensures !Close(PosOf(fleet[gs[0][0]]), PosOf(fleet[gs[q][b]]))
    {
      ElementsIndex(rest, q - 1, b);
      assert rest[q - 1][b] !in d + {i} + SetOf(ms);
    }
  }

  lemma LeaderFirstCons(d: set<nat>, i: nat, ms: seq<nat>, rest: seq<seq<nat>>)
    requires forall k: nat :: k < i ==> k in d
    requires forall p :: 0 <= p < |rest| ==> |rest[p]| > 0
    requires LeaderFirst(d + {i} + SetOf(ms), rest)
    ensures LeaderFirst(d, [[i] + ms] + rest)
  {
    var gs := [[i] + ms] + rest;
    forall p, k: nat | 0 <= p < |gs| && k < gs[p][0] && k !in d
      ensures exists p' :: 0 <= p' < p && k in gs[p']
    {
      if k in {i} + SetOf(ms) {
        assert k in gs[0];
      } else if p == 0 {
        assert false;
      } else {
        assert gs[p] == rest[p - 1];
        assert k !in d + {i} + SetOf(ms);
        var p'' :| 0 <= p'' < p - 1 && k in rest[p''];
        assert gs[p'' + 1] == rest[p''];
      }
    }
  }

  lemma {:induction false} GroupsGreedy(fleet: seq<Vehicle>, i: nat, d: set<nat>)
    requires ScanState(fleet, i, d)
    decreases |fleet| - i
    ensures Partition(fleet, d, Groups(fleet, i, Ids(fleet, d)))
    ensures Greedy(fleet, Groups(fleet, i, Ids(fleet, d)))
    ensures LeaderFirst(d, Groups(fleet, i, Ids(fleet, d)))
    ensures forall p :: 0 <= p < |Groups(fleet, i, Ids(fleet, d))| ==> Groups(fleet, i, Ids(fleet, d))[p][0] >= i
  {
    GroupsPartition(fleet, i, d);
    if i < |fleet| {
      IdsMember(fleet, d, i);
      if i in d {
        GroupsGreedy(fleet, i + 1, d);
      } else {
        GroupsGreedyLead(fleet, i, d);
      }
    }
  }

  lemma {:induction false} GroupsGreedyLead(fleet: seq<Vehicle>, i: nat, d: set<nat>)
    requires ScanState(fleet, i, d) && i < |fleet| && i !in d
    decreases |fleet| - i, 0
    ensures WellFormed(fleet, Groups(fleet, i, Ids(fleet, d)))
    ensures Greedy(fleet, Groups(fleet, i, Ids(fleet, d)))
    ensures LeaderFirst(d, Groups(fleet, i, Ids(fleet, d)))
  {
    IdsMember(fleet, d, i);
    IdsAdd(fleet, d, i);
    var anchor := PosOf(fleet[i]);
    GatherSpec(fleet, i, anchor, 0, d + {i});
    var r := Gather(fleet, i, anchor, 0, Ids(fleet, d + {i}));
    var d' := d + {i} + SetOf(r.0);
    GroupsGreedy(fleet, i + 1, d');
    var rest := Groups(fleet, i + 1, r.1);
    assert Groups(fleet, i, Ids(fleet, d)) == [[i] + r.0] + rest;
    assert forall a :: 0 <= a < |r.0| ==> i < r.0[a];
    GreedyCons(fleet, d, i, r.0, rest);
    LeaderFirstCons(d, i, r.0, rest);
  }

  // ---------------------------------------------------------------------
  // The markers shown

  /** The markers drawn at a zoom level: one per vehicle when zoomed in past
      1.8, otherwise one per group of the greedy scan. */
  function VisibleFleet(fleet: seq<Vehicle>, zoom: real): (ms: seq<Marker>)
    ensures zoom > ClusterZoom ==> |ms| == |fleet| && forall k :: 0 <= k < |fleet| ==> ms[k] == Single(fleet[k])
    ensures zoom <= ClusterZoom ==>
      var gs := Groups(fleet, 0, {});
      && |ms| == |gs|
      && forall p :: 0 <= p < |gs| ==>
           && Members(ms[p]) == Vehicles(fleet, gs[p])
           && (ms[p].Single? <==> |gs[p]| == 1)
           && (ms[p].Cluster? ==> ms[p].anchor == PosOf(fleet[gs[p][0]]))
  {
    if zoom > ClusterZoom then seq(|fleet|, k requires 0 <= k < |fleet| => Single(fleet[k]))
    else
      var gs := Groups(fleet, 0, {});
      seq(|gs|, p requires 0 <= p < |gs| => ToMarker(fleet, gs[p]))
  }

  lemma IdsEmpty(fleet: seq<Vehicle>)
    ensures Ids(fleet, {}) == {}
  {
  }

  /** From an empty processed set, the greedy scan partitions the whole fleet. */
  lemma GroupsSpec(fleet: seq<Vehicle>)
    requires DistinctIds(fleet)
    ensures var gs := Groups(fleet, 0, {});
            && Partition(fleet, {}, gs) && Greedy(fleet, gs) && LeaderFirst({}, gs)
  {
    IdsEmpty(fleet);
    GroupsGreedy(fleet, 0, {});
  }

  /** Zoomed out, every vehicle of a fleet with distinct ids is drawn in some marker. */
  lemma ClusteredCovers(fleet: seq<Vehicle>, zoom: real)
    requires DistinctIds(fleet) && zoom <= ClusterZoom
    ensures var ms := VisibleFleet(fleet, zoom);
      forall k :: 0 <= k < |fleet| ==>
        exists p, a :: 0 <= p < |ms| && 0 <= a < |Members(ms[p])| && Members(ms[p])[a] == fleet[k]
  {
    GroupsSpec(fleet);
    var gs := Groups(fleet, 0, {});
    var ms := VisibleFleet(fleet, zoom);
    forall k | 0 <= k < |fleet|
      ensures exists p, a :: 0 <= p < |ms| && 0 <= a < |Members(ms[p])| && Members(ms[p])[a] == fleet[k]
    {
      assert k in Elements(gs);
      ElementsMember(gs, k);
      var p, a :| 0 <= p < |gs| && 0 <= a < |gs[p]| && gs[p][a] == k;
      assert Members(ms[p])[a] == fleet[k];
    }
  }

  /** Zoomed out, no vehicle of a fleet with distinct ids is drawn twice. */
  lemma ClusteredOnce(fleet: seq<Vehicle>, zoom: real)
    requires DistinctIds(fleet) && zoom <= ClusterZoom
    ensures var ms := VisibleFleet(fleet, zoom);
      forall p, q, a, b ::
        (0 <= p < |ms| && 0 <= q < |ms| && 0 <= a < |Members(ms[p])| && 0 <= b < |Members(ms[q])|
         && Members(ms[p])[a] == Members(ms[q])[b]) ==> p == q && a == b
  {
    GroupsSpec(fleet);
    var gs := Groups(fleet, 0, {});
    var ms := VisibleFleet(fleet, zoom);
    forall p, q, a, b | 0 <= p < |ms| && 0 <= q < |ms| && 0 <= a < |Members(ms[p])| && 0 <= b < |Members(ms[q])|
        && Members(ms[p])[a] == Members(ms[q])[b]
      ensures p == q && a == b
    {
      assert fleet[gs[p][a]] == fleet[gs[q][b]];
      assert gs[p][a] == gs[q][b];
      if p < q {
        assert false;
      } else if q < p {
        assert false;
      } else if a < b {
        assert false;
      } else if b < a {
        assert false;
      }
    }
  }

  /** Zoomed out, each cluster is anchored at its first member and every
      other member lies within 5 units of it, while nothing drawn in a later
      marker lies within 5 units of an earlier marker's first vehicle. */
  lemma ClusteredGeometry(fleet: seq<Vehicle>, zoom: real)
    requires DistinctIds(fleet) && zoom <= ClusterZoom
    ensures var ms := VisibleFleet(fleet, zoom);
      && (forall p :: 0 <= p < |ms| ==> |Members(ms[p])| > 0)
      && (forall p :: 0 <= p < |ms| && ms[p].Cluster? ==> |ms[p].members| > 1 && ms[p].anchor == PosOf(ms[p].members[0]))
      && (forall p, a :: 0 <= p < |ms| && 0 < a < |Members(ms[p])| ==> Close(PosOf(Members(ms[p])[0]), PosOf(Members(ms[p])[a])))
      && (forall p, q, b :: 0 <= p < q < |ms| && 0 <= b < |Members(ms[q])| ==> !Close(PosOf(Members(ms[p])[0]), PosOf(Members(ms[q])[b])))
  {
    GroupsSpec(fleet);
  }

  /** The map opens clustered, one zoom step in still clusters, and a
      second step shows every vehicle on its own. */
  lemma ZoomThreshold(fleet: seq<Vehicle>)
    ensures HandleZoom(InitialZoom, In) <= ClusterZoom
    ensures var z := HandleZoom(HandleZoom(InitialZoom, In), In);
            z > ClusterZoom && VisibleFleet(fleet, z) == seq(|fleet|, k requires 0 <= k < |fleet| => Single(fleet[k]))
  {
  }
}
