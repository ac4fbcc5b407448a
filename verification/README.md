# Fleet risk engine and driver wallet — a Dafny model

This project models two pieces of a logistics dashboard. Both are written as pure
functions over immutable records, with their properties proved in Dafny 4.11.

**The fleet simulation and geofenced alert engine of the map feature**
(`components/features/MapAssistant.tsx`). It covers:
- the coordinate box, the safe haven, the three risk zones and the six-truck seed fleet;
- the projection of a geographic point onto the 0..100 display plane;
- the timer tick: the motion pass that drives truck T-04 towards accident zone Z-03, or
  towards the safe haven once rerouted, followed by the proximity pass that fills the single
  alert slot;
- the two-second debounce of the alert sound;
- the operator's reroute command;
- the arrival detector that announces a rerouted truck reaching the haven;
- the greedy marker clustering;
- the zoom buttons.

**The driver wallet** (`components/features/DriverWallet.tsx`). It covers:
- the withdrawal deductions (3% withholding tax, a fixed 15 fee, and the 750 social-security
  contribution when this month's is unpaid);
- the guarded withdrawal request, which holds the amount out of the balance;
- the guarded carbon-token redemption;
- the administrator's approve/reject decision, where a reject refunds and an approve settles
  social security in the welfare register;
- the welfare toggle;
- the pending queue and the carbon totals.

Modules:
- `Wrappers`: `Option`.
- `FleetModel`: entities and seed data.
- `Projection`: `getPos` and the zoom clamp.
- `Motion`: one vehicle's tick, plus convergence.
- `Proximity`: the alert scan and the sound debounce.
- `Simulation`: the state record with `Tick`, `Reroute`, `Arrive` and `Simulate`.
- `Scenario`: end-to-end runs of the seed scenario.
- `Clustering`: the marker scan.
- `Ledger`: the wallet.

How the JavaScript is rendered in Dafny:
- Numbers are `real`.
- Euclidean distances are compared squared: 0.04² = 0.0016 for alerts, 5² = 25 for clusters.
- JavaScript truthiness is written out. An empty `driverName` counts as missing. An
  unparsable withdrawal amount is `None`.
- Each handler is one atomic transition.
- Wall-clock time (ms), the ids the program draws at random and the locale-formatted date
  are parameters.

Behaviours of the code worth knowing before reading the model:
- A reroute adds any id, known or not, to the rerouted set. It clears the alert
  unconditionally, whichever vehicle the alert named. (`Simulation.Reroute`)
- Nothing keeps the rerouted set in step with vehicle statuses. An id can sit in it for a
  vehicle that never moves.
- The bounding box is a constant, so the projection has no error path.
- The alert banner offers a reroute while T-04 sits at CRITICAL_STOP, but a stopped vehicle
  is never moved again. A reroute issued then clears the alert, and afterwards:
  - T-04 stays stopped for good;
  - its id stays in the rerouted set;
  - no arrival is ever announced.

  `Scenario.RerouteAfterStop` proves this. A reroute issued while T-04 is still on the move
  does reach the haven and is announced (`Scenario.RerouteScenario`).

## Model

| member | source | states |
|---|---|---|
| FleetModel.InitialFleetDistinct | components/features/MapAssistant.tsx:79-88 | The six seed vehicles carry six different ids. |
| FleetModel.FindZone | components/features/MapAssistant.tsx:288 | Zone lookup by id returns the first zone with that id. It returns nothing exactly when no zone has the id. |
| Motion.HazardTargetIsZ03 | components/features/MapAssistant.tsx:60-76 | Among the seed zones, the scenario's hazard target found by id is the accident zone Z-03 at (13.25, 101.08). |
| Projection.GetPos | components/features/MapAssistant.tsx:401-405 | Both display coordinates always lie in [0, 100]. A point at or beyond an edge of the box is pinned to that edge. |
| Projection.ProjectionRoundTrip | components/features/MapAssistant.tsx:401-405 | Inside the box no clamping occurs, and inverting the projection gives back the geographic point. |
| Projection.UnprojectRoundTrip | components/features/MapAssistant.tsx:401-405 | Every display point is the image of a point of the box. |
| Projection.ProjectionCorners | components/features/MapAssistant.tsx:41-46 | The north-west corner maps to (0,0), the south-east corner to (100,100), and the box centre (13.15, 101.00) to (50,50). |
| Projection.ProjectionMonotone | components/features/MapAssistant.tsx:401-405 | Going north never moves a marker down, and going east never moves it left. |
| Projection.HandleZoom | components/features/MapAssistant.tsx:462-463 | The zoom stays in [1, 4]. A step that stays inside the range moves the zoom by exactly 0.4, up for in and down for out. A step past either limit lands on the limit. |
| Projection.ZoomInOutRoundTrip | components/features/MapAssistant.tsx:462-463 | Stepping in and then out restores any zoom level at which neither step is clamped. |
| Motion.StepVehicle | components/features/MapAssistant.tsx:259-309 | A tick never changes a vehicle's identity fields. Vehicles that are IDLE, CRITICAL_STOP or SAFE_ARRIVAL are left as they are, and so is every vehicle other than T-04. |
| Motion.HazardStep | components/features/MapAssistant.tsx:286-303 | A T-04 that is not rerouted either stops in place with speed 0 when both offsets to Z-03 are under 0.003, or becomes RISK_WARNING at speed 60 with both offsets exactly 0.98 of what they were. |
| Motion.HavenStep | components/features/MapAssistant.tsx:265-283 | A rerouted T-04 either arrives in place with speed 0 when both offsets to the haven are under 0.005, or becomes REROUTED on heading 315 with both offsets exactly 0.97 of what they were. |
| Motion.MoveFleet | components/features/MapAssistant.tsx:259-310 | The motion pass keeps the fleet's length and order, steps each vehicle independently, and leaves every vehicle it does not drive as it was. |
| Motion.HazardDecay | components/features/MapAssistant.tsx:286-303 | After n ticks towards Z-03, T-04's offsets are the starting offsets scaled by 0.98^n, unless it has already stopped within 0.003. |
| Motion.HazardConvergence | components/features/MapAssistant.tsx:286-303 | Starting within 0.1 degree of Z-03 on both axes, T-04 is in CRITICAL_STOP within 0.003 of the zone after at most 211 ticks. |
| Motion.StaysStopped | components/features/MapAssistant.tsx:260-261 | CRITICAL_STOP and SAFE_ARRIVAL are absorbing: later ticks leave the vehicle unchanged. |
| Motion.HavenDecay | components/features/MapAssistant.tsx:265-283 | After n rerouted ticks, T-04's offsets to the haven are the starting offsets scaled by 0.97^n, unless it has already arrived. |
| Motion.HavenConvergence | components/features/MapAssistant.tsx:265-283 | A rerouted T-04 within one degree of the haven on both axes arrives within 185 ticks. Every point of the box qualifies. |
| Proximity.ScanZonesSpec | components/features/MapAssistant.tsx:317-322 | The inner zone loop keeps its previous pair when no later zone qualifies. Otherwise it ends on the last qualifying zone. |
| Proximity.DetectProximitySpec | components/features/MapAssistant.tsx:312-325 | The alert is empty exactly when no vehicle outside the rerouted set, and not arrived, lies within 0.04 of a CRITICAL or WARNING zone. Otherwise it names the unique last qualifying (vehicle, zone) pair in fleet-then-zone order. |
| Proximity.AlertIsEligible | components/features/MapAssistant.tsx:315-320 | An alert never names a rerouted or arrived vehicle, nor a MODERATE zone. |
| Proximity.AlertSound | components/features/MapAssistant.tsx:123-128 | A sound is emitted exactly when audio is enabled and at least 2000 ms have passed since the last one. Only an emission moves the last-beep time, and it moves it to now. |
| Proximity.AtMostOneBeepPerWindow | components/features/MapAssistant.tsx:123-128 | Two triggers less than 2000 ms apart play at most one sound. |
| Proximity.EmissionsSpaced | components/features/MapAssistant.tsx:123-128 | Over any series of triggers, each played sound comes at least 2000 ms after the previous one, the first at least 2000 ms after the initial last-beep time. With audio off nothing plays. |
| Simulation.Tick | components/features/MapAssistant.tsx:256-327 | A tick steps every vehicle and recomputes the alert from the moved fleet. The beep time changes exactly when an alert stands, audio is on and the debounce has expired, and a changed beep time is the tick's own time. Nothing else in the state changes. |
| Simulation.TickAlert | components/features/MapAssistant.tsx:312-325 | After a tick, the alert slot characterises the qualifying pairs of the moved fleet, as DetectProximitySpec states. |
| Simulation.ToggleAudio | components/features/MapAssistant.tsx:800 | The speaker button flips whether alerts are audible and changes nothing else. |
| Simulation.ToggleAudioTwice | components/features/MapAssistant.tsx:800 | Pressing the speaker button twice restores the state. |
| Simulation.Reroute | components/features/MapAssistant.tsx:173-179 | A reroute adds the id to the rerouted set, with no other member added or removed. It empties the alert slot and changes nothing else. |
| Simulation.RerouteIdempotent | components/features/MapAssistant.tsx:173-179 | Rerouting twice equals rerouting once. |
| Simulation.RerouteSilences | components/features/MapAssistant.tsx:173-179 | The tick after a reroute never alerts about the rerouted vehicle. |
| Simulation.FirstArrived | components/features/MapAssistant.tsx:338 | Finds the least index of a SAFE_ARRIVAL vehicle, or nothing exactly when no vehicle has arrived. |
| Simulation.Arrive | components/features/MapAssistant.tsx:337-346 | If the first arrived vehicle is still in the rerouted set, its id leaves the set and its plate becomes the notification. Otherwise nothing changes. |
| Simulation.ArriveIdempotent | components/features/MapAssistant.tsx:337-346 | Running the arrival detector twice equals running it once, so an arrival is never announced twice. |
| Simulation.Step | components/features/MapAssistant.tsx:256-348 | One timer period moves every vehicle one step and keeps the fleet's ids in order. The alert is recomputed from the moved fleet and never names a rerouted vehicle. The beep time changes only under the debounce rule, and then to the period's time. The rerouted set only shrinks. If the first arrived vehicle of the moved fleet is still rerouted, its id leaves the set and its plate becomes the notification. Otherwise the rerouted set and the notification are unchanged. |
| Simulation.Simulate | components/features/MapAssistant.tsx:256-348 | Any number of periods keep the fleet's length and ids and never add to the rerouted set. After at least one period the alert never names a rerouted vehicle. |
| Simulation.BeepTimesStep | components/features/MapAssistant.tsx:123-128 | Each period either keeps the recorded beep time or sets it to the period's time. It sets it only when at least 2000 ms have passed since the recorded time. |
| Simulation.RecordedAfter | components/features/MapAssistant.tsx:123-128 | Once the beep time has been set to a period's time, later records never fall below it while the clock does not run backwards. |
| Simulation.BeepsSpaced | components/features/MapAssistant.tsx:123-128 | Over a clock that never runs backwards, any two periods that sound the alert are at least 2000 ms apart. |
| Simulation.SimulateConcat | components/features/MapAssistant.tsx:256-348 | Running two batches of periods one after the other equals running them as one batch. |
| Simulation.DistinctIdsPreserved | components/features/MapAssistant.tsx:173-348 | No tick, reroute, arrival or whole period makes two vehicles share an id. |
| Simulation.ReachableDistinct | components/features/MapAssistant.tsx:79-88 | Every state the timer reaches from the seed state names each vehicle once, so the clustering guarantees stated for distinct ids apply to it. |
| Simulation.AlertConsistentPreserved | components/features/MapAssistant.tsx:173-179 | The alert never names a rerouted vehicle. A tick establishes this, a reroute establishes it, and the arrival detector preserves it. |
| Scenario.InitialFleetIsScenario | components/features/MapAssistant.tsx:79-88 | In the seed fleet, no truck other than T-04 starts within alert range of a zone, and none of them is arrived. |
| Scenario.ScenarioTick | components/features/MapAssistant.tsx:256-327 | In that fleet a tick moves only T-04, and raises no alert once T-04 is rerouted or has arrived. |
| Scenario.UncontrolledScenario | components/features/MapAssistant.tsx:256-327 | Left alone from the seed situation, T-04 is in CRITICAL_STOP with speed 0 after 211 timer periods, and the alert slot names (T-04, Z-03). |
| Scenario.InitialIsUncontrolledStart | components/features/MapAssistant.tsx:79-88 | The seed state meets the preconditions of the uncontrolled run: T-04 is moving 0.10 and 0.08 from Z-03. |
| Scenario.RerouteScenario | components/features/MapAssistant.tsx:337-346 | Rerouted while still on the move, T-04 reaches the haven within 185 periods. It has then left the rerouted set, its plate is the notification, and no alert stands. |
| Scenario.StoppedReroutedStep | components/features/MapAssistant.tsx:259-326 | One period with T-04 stopped and rerouted leaves the fleet, the rerouted set and the notification unchanged. The stopped truck is skipped by the motion pass and the rerouted id by the proximity pass, so no alert is raised. |
| Scenario.ReroutedPeriod | components/features/MapAssistant.tsx:259-348 | One more period of a rerouted run moves T-04 one haven step further. Once T-04 has arrived, its id has left the rerouted set and its plate is the notification. |
| Scenario.RerouteAfterStop | components/features/MapAssistant.tsx:259-261 | A reroute issued after the emergency stop leaves the fleet frozen for every later period. The id stays in the rerouted set, nothing is announced, and no alert returns. |
| Clustering.ToMarker | components/features/MapAssistant.tsx:430-434 | A group of one becomes a single marker. A larger group becomes a cluster anchored at its leader's position, holding the group's vehicles in order. |
| Clustering.GatherSpec | components/features/MapAssistant.tsx:421-429 | The inner scan takes, in increasing order, exactly the unprocessed vehicles close to the leader (squared display distance under 25), and marks them processed. |
| Clustering.GroupsGreedy | components/features/MapAssistant.tsx:415-435 | The outer scan's groups partition the unprocessed indices. Each group starts with the first index no earlier group took. Members are close to their leader, and nothing grouped later is close to an earlier leader. |
| Clustering.VisibleFleet | components/features/MapAssistant.tsx:408-437 | Above zoom 1.8 there is one single marker per vehicle, in fleet order. Otherwise there is one marker per group of the scan, with the marker's vehicles those of the group. |
| Clustering.ClusteredCovers | components/features/MapAssistant.tsx:408-437 | Zoomed out, every vehicle of a fleet with distinct ids appears in some marker. |
| Clustering.ClusteredOnce | components/features/MapAssistant.tsx:408-437 | Zoomed out, no vehicle of a fleet with distinct ids appears twice. |
| Clustering.ClusteredGeometry | components/features/MapAssistant.tsx:408-437 | Each cluster is anchored at its first vehicle, and every other member lies within 5 display units of it. Nothing in a later marker lies within 5 units of an earlier marker's first vehicle. |
| Clustering.ZoomThreshold | components/features/MapAssistant.tsx:92 | The map opens clustered at zoom 1.2 and still clusters after one step in. After a second step every vehicle is shown on its own. |
| Ledger.CalculateDeductions | components/features/DriverWallet.tsx:169-175 | Tax is 3% of the amount and the fee is 15. The social-security part is 0 when paid and 750 otherwise. Tax, fee, social security and net add up to the amount. |
| Ledger.RequestWithdraw | components/features/DriverWallet.tsx:177-210 | A missing, non-positive or uncovered amount changes nothing. Otherwise the balance drops by the amount and one WITHDRAW/PENDING transaction is prepended, carrying the deductions. The older history and everything else are kept. |
| Ledger.Redeem | components/features/DriverWallet.tsx:212-230 | With too few tokens nothing changes. Otherwise the carbon balance drops by the cost and one CARBON/COMPLETED transaction of minus the cost is prepended. Everything else is kept. |
| Ledger.FindTx | components/features/DriverWallet.tsx:234 | Finds the first transaction with the id, or nothing exactly when no transaction has it. |
| Ledger.Decide | components/features/DriverWallet.tsx:237-242 | Only transactions with the id change, and only in status and title. |
| Ledger.AdminAction | components/features/DriverWallet.tsx:232-269 | An unknown id changes nothing. A reject refunds the absolute amount only for the current driver's own transaction. An approve carrying social security settles the driver's register entries, and sets the paid flag when that driver is the current one. An approve without it touches neither the register nor the flag. |
| Ledger.SettleWelfare | components/features/DriverWallet.tsx:256-261 | Every register entry under the driver's name becomes PAID with today's date. The other entries are untouched. |
| Ledger.ToggleEntry | components/features/DriverWallet.tsx:273-284 | A toggled entry flips between PAID and UNPAID. Its date is empty exactly when it becomes UNPAID. |
| Ledger.Toggle | components/features/DriverWallet.tsx:271-287 | Only the entries with the id are toggled. Balances, history and profile are kept. The paid flag is unchanged when no toggled entry is under the current driver's name. Otherwise it becomes the new status of the last such entry. |
| Ledger.SyncSsoDecided | components/features/DriverWallet.tsx:276-278 | The sweep over the register settles the paid flag in both cases: no own entry toggled, or a last own entry toggled. |
| Ledger.SyncSsoLast | components/features/DriverWallet.tsx:276-278 | When a toggled entry is under the current driver's name, the paid flag ends as the new status of the last such entry. |
| Ledger.SyncSsoUntouched | components/features/DriverWallet.tsx:276-278 | When no toggled entry is under the current driver's name, the paid flag is unchanged. |
| Ledger.PendingTransactions | components/features/DriverWallet.tsx:323 | The queue holds exactly the pending transactions of the history. A one-transaction history yields that transaction if it is pending and nothing otherwise. |
| Ledger.PendingConcat | components/features/DriverWallet.tsx:323 | The queue of a history split in two is the first part's queue followed by the second's. With the one-transaction case this fixes the queue as the pending transactions in history order, repeats included. |
| Ledger.CarbonEarned | components/features/DriverWallet.tsx:332-333 | The earned total is never negative. A single transaction contributes its amount exactly when it is one of the current driver's carbon entries with a positive amount. |
| Ledger.CarbonSpent | components/features/DriverWallet.tsx:332-334 | The spent total is never negative. A single transaction contributes the magnitude of its amount exactly when it is one of the current driver's carbon entries with a negative amount. |
| Ledger.CarbonConcat | components/features/DriverWallet.tsx:332-334 | Both totals add up over a history split in two, so each total is the sum of the one-transaction contributions over the whole history. |
| Ledger.SolventPreserved | components/features/DriverWallet.tsx:177-287 | No handler drives the balance or the carbon balance below zero. |
| Ledger.WithdrawThenReject | components/features/DriverWallet.tsx:244-248 | Rejecting a request just made under a fresh id restores the original balance, keeps the older history, and marks the request REJECTED. |
| Ledger.WithdrawThenApprove | components/features/DriverWallet.tsx:249-267 | Approving a request just made under a fresh id keeps the amount out of the balance and leaves the contribution paid. If it was unpaid at request time, the driver's register entries are settled. |
| Ledger.PendingAfterWithdraw | components/features/DriverWallet.tsx:204 | A new request joins the front of the administrator's queue. |
| Ledger.PendingAfterDecide | components/features/DriverWallet.tsx:237-242 | Relabelling the transactions with an id takes exactly those out of the queue and keeps the others in order. |
| Ledger.DecisionLeavesQueue | components/features/DriverWallet.tsx:232-269 | After a decision, the queue is the old queue with the transactions carrying that id removed, the rest in their old order. An unknown id leaves the queue as it was. |
| Ledger.ToggleTwice | components/features/DriverWallet.tsx:271-287 | Toggling twice restores every status, and everything except the date. |
| Ledger.AdminSsoConsistent | components/features/DriverWallet.tsx:232-269 | A decision keeps the paid flag in step with the current driver's register entries: approving their contribution marks those entries paid and sets the flag. |
| Ledger.ToggleSsoConsistent | components/features/DriverWallet.tsx:271-287 | The welfare toggle keeps the paid flag in step with the current driver's register entry, given that driver has one entry. |
| Ledger.SsoConsistentPreserved | components/features/DriverWallet.tsx:177-287 | The paid flag stays in step with the current driver's register entry through every handler, given that driver has one entry. |
| Ledger.RedeemConservesCarbon | components/features/DriverWallet.tsx:212-230 | A redemption moves tokens from the carbon balance to the spent total, and the earned total is unchanged. |
| Ledger.InitialWallet | components/features/DriverWallet.tsx:111-124 | The opening wallet holds 4850.50 and 320 tokens, with the contribution paid. The fixed history ends its transaction list and the current driver's entry heads the register. |
| Ledger.InitialWalletConsistent | components/features/DriverWallet.tsx:111-124 | The opening wallet is solvent and its paid flag agrees with the register, provided the generated register entries are for other drivers. |
| Ledger.InitialHistoryFacts | components/features/DriverWallet.tsx:51-56 | The recorded bank withdrawal matches the deduction rule at a paid month. The opening history shows 45 tokens earned and none spent. |

## Left out

- Web Audio synthesis: only the decision to emit a sound and the last-beep time are modelled.
  The success and confirmation sounds are side effects with no state.
- React and timer plumbing: `useState`/`useEffect`, the 800 ms interval, the wallet's 1000 ms
  delays, stale closures and render scheduling are not modelled. Every handler is one atomic
  transition, and `Simulate` applies one `Step` per timer period.
- Simulation.Step: the arrival detector runs once per timer period, after the tick. The code's detector also reruns when the rerouted set changes. So a reroute of a vehicle that has already arrived, issued from a stale vehicle card, is announced at once in the code but only after the next period in the model. Composing `Simulation.Arrive(Simulation.Reroute(s, id))` gives the code's immediate behaviour.
- The 6000 ms expiry of the arrival notification: it is a timer callback, and no engine
  state depends on it.
- Rendering, marker styling, drag and pan, layer toggles and the cluster-click zoom are not
  modelled. They are presentation.
- The generative-AI service and its callers (weather, location analysis, autocomplete,
  financial advice) are not part of this model. They are network calls.
- Randomised mock data is not modelled: the generated pending requests, the generated
  welfare entries, and the random transaction ids. They are parameters of `Ledger.InitialWallet`,
  `Ledger.RequestWithdraw` and `Ledger.Redeem`.
- `toLocaleDateString` is not modelled: the date is the opaque string parameter `today`.
- IEEE floating point, `Math.sqrt` and `parseFloat` are not modelled. Arithmetic is exact over
  `real`, distances are compared squared, and the withdrawal amount arrives already parsed,
  as an `Option<real>`.
- The welfare search filter and the profile editor are not modelled. The filter depends on
  JavaScript's Unicode `toLowerCase` over Thai text.
- Motion.HazardConvergence: proved for a start within 0.1 degree of Z-03 on each axis, which
  covers the seed position. Farther starts are not covered, because every bound is an explicit
  count of 0.98-ticks.
- Motion.HavenConvergence: proved for a start within one degree of the haven on each axis,
  which covers the whole box. Farther starts are not covered.
- Clustering.ClusteredCovers: stated for fleets with distinct ids. The scan records processed
  vehicles by id, so with duplicate ids a later duplicate is silently skipped. The seed fleet's
  ids are distinct, and `Simulation.ReachableDistinct` shows that every state the timer reaches
  from the seed keeps them distinct.
- Ledger.SsoConsistentPreserved: stated only when the current driver has a single register
  entry. With two entries under that name, toggling one of them leaves the other out of step
  with the flag.
