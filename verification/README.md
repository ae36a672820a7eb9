# A verified model of the makerspace coordinator

This project models, in Dafny, the parts of the system that decide whether a machine may
run, whether a door may open, whether a training step is granted, and whether a page can be
found. Five subsystems are covered:

- **The lease engine** (`edge/src/modules.rs`). One store of wiring, readings, latches,
  leases, sessions, stops, relay reports and sequencing clocks is what each tick settles
  the relays by. `LeaseEngine` gives each call's effect on a value `Store`;
  `LeaseRuns` turns calls into histories; `ModuleState` is the store as a class, its loops
  and field updates proved against `LeaseEngine` and its ghost history kept as a run. The
  theorems (`LeaseDecision`, `LeaseReadings`, `LeaseSessions`, `LeaseSequencing`,
  `LeaseRunOn`, `LeaseRunOnLaw`) speak of every history of interleaved calls, each tool's
  share of a tick one step. `LeaseInterleaving` cuts that step where the engine lets go of
  its lock, any number of ticks overlapping and any calls between their parts; it says what
  still holds of leases, latches and stops, `LeaseLatchRaces` which trips end as latches, and
  `LeaseSettling` carries sequencing, run-on and debounce over.
- **The resource cache** (`edge/src/resources.rs`, `edge/src/doors.rs`). One policy fed by
  three payload shapes, one decision, the Open Access hold (`ResourcePolicy`,
  `PolicyReplay`, `AliasRefinement`, `HoldPulses`, `HoldExactness`, the class
  `ResourceCache`), the lock discipline as a transition system (`LockDiscipline`), and what a
  scan answers when the stores it reads change under it (`ScanInterleaving`).
- **The power store** (`edge/src/power.rs`): summed draw, overages, sticky local trips
  (`PowerState`).
- **cmi5** (`cmi5/src/validation.rs`, `server/src/cmi5.rs`, `cmi5/src/manifest.rs`):
  statement validation and the sequence machine (`Cmi5Validation`), recording and granting
  (`Cmi5Recorder`, `Cmi5Grants`, and for concurrent calls `Cmi5Races` and
  `Cmi5DoubleGrants`), and the manifest
  reader and writer over an event stream (`Manifest`, `ManifestParser`, `ManifestReader`,
  `ManifestWriter`) with their round trip (`ManifestRoundTrip`, `ManifestTrees`), what the
  reader tolerates (`ManifestForeign`, `ManifestAlike`) and what it makes of what is left
  out (`ManifestDefaults`). Verb rules follow the cmi5
  specification, section 9.3.
- **The navigation tree** (`css_lib/src/nav.rs`): `Navigation`, `NavigationOnce`,
  `NavigationOrder`, `NavigationPlace`.

`dafny verify dfyconfig.toml` checks everything. Where a method of the source updates
fields or loops, the model has a class method or a loop proved equal to a function of the
old state; the theorems are about those functions.

Conventions: instants and durations are integers in milliseconds (in `HoldPulses` and
`HoldExactness`, clock units, `perMs` of them to the millisecond); a history is a sequence of moments, each the
store before a call and the call; ids and names are strings; scores, draws and limits are
real numbers.

## Where the code and its comments differ

The model follows the code. Each difference has a lemma that shows it, on an input reached
from the start or on every input of a kind, and one that says exactly when it arises.

- `granted_since` survives an allow that cancels a run-on, so a plug can be granted run-on
  after an allow that never granted it (`LeaseRunOnLaw.RunOnWithoutAGrantInTheLastAllow`):
  exactly when the tick before that allow still granted it
  (`LeaseRunOnLaw.UngrantedRunOnLaw`).
- A latching trip that fires behind another denial leaves no latch
  (`LeaseDecision.AMaskedTripIsForgotten`); it must be the denial the decision reports
  (`LeaseDecision.RenewLatchesExactly`).
- The latch is written under a later lock than the one the trip was read under. A trip whose
  rule has left the wiring by then is reported and not latched
  (`LeaseLatchRaces.ATripWithoutItsRuleIsForgotten`), and one read before a reset latches
  after it (`LeaseLatchRaces.AResetIsOvertaken`): what decides is the wiring the write finds
  (`LeaseLatchRaces.ATrippedReadLatchesExactly`).
- A stop is forgotten by the first answer to come once the grace has passed, so an answer
  older than the stop can reopen it (`LeaseSessions.AStopForgotten`): exactly when it or one
  before it came that late (`LeaseSessions.OlderAnswerReopensExactlyOnceForgotten`).
- A tick releases its lock between deciding and acting, so one already under way can grant
  after a stop (`LeaseInterleaving.ATickUnderWayGrantsAfterTheStop`). One that was read
  before the stop, and allowed then, grants the bindings whose turn has come; any other
  grants what still runs on, and nothing else is granted
  (`LeaseInterleaving.WhatASettlingGrantsAfterAStop`, and in terms of the history
  `LeaseSettling.SettlingAfterAStop`).
- An index page adopted by its folder takes what is nested below it out of the tree
  (`NavigationOnce.AnAdoptedIndexDropsWhatIsBelowIt`, `NavigationOnce.EveryPageExactlyOnce`).
- The hold pulse is cut to whole milliseconds, so on a finer clock the end of a window can be
  left closed (`HoldExactness.FinerClockLeavesASliver`). What matters is where the passes that
  send a pulse fall, not the others (`HoldExactness.HoldExactness`,
  `HoldExactness.OffTheGridAndExact`).
- A policy whose stamp does not parse is applied whatever came before it
  (`PolicyReplay.UnstampedPolicyAlwaysLands`), so the newest payload need not be the last to
  land: it is exactly when no such policy arrived after it (`PolicyReplay.NewestIsLastToLand`).
- A registration can be granted twice: by two calls at once
  (`Cmi5DoubleGrants.OverlappingCallsGrantTwice`), and by two in turn if the first is abandoned
  between its grant and its mark (`Cmi5DoubleGrants.CallsInTurnGrantTwice`). It never is unless
  a call passes its check while another has passed and not marked, an abandoned one then
  never marking; and it always is when there is such an overlap and every call that passes
  goes on to write (`Cmi5Races.AtMostOneGrantExactlyWithoutOverlap`).
- A scan reads the power before the policy, under a lock each, so a door may be let open
  though at no instant would both have let it (`ScanInterleaving.AYesOfNoInstant`): its
  verdict is that of the instant the policy was read exactly when the resource was then
  locked out or not as it was when the power was (`ScanInterleaving.VerdictIsThatOfTheLastRead`).
- The manifest reader skips unknown elements in some places and reads through them in others
  (`ManifestForeign.ForeignElementsAreSkipped`,
  `ManifestForeign.ForeignWrappersAreTransparent`).

## Model

| member | source | states |
|---|---|---|
| LeaseEngine.ResolveMeans | edge/src/modules.rs:506-517 | A name resolves to a tool with that server id, else to one with that external id, and to nothing only when no tool answers to it. |
| LeaseEngine.KeyMeans | edge/src/modules.rs:369-376 | What is remembered of a name is kept under the wired tool's id, whichever name it is asked for by, and under the name itself where nothing is wired to it. |
| LeaseEngine.RoomsMean | edge/src/modules.rs:395-416 | The resources a snapshot is reconciled for are the until_stopped doors it lists, and those it claims the ones of them it says are in use. |
| LeaseDecision.AllowMeans | edge/src/modules.rs:603-650 | A wired tool is allowed if and only if nothing latched it, it hears from every fail_off module but the coordinator, each of its rules is observed and met, and someone is using it. |
| LeaseDecision.MoreWiringNeverAllows | edge/src/modules.rs:551-650 | Adding rules or module bindings never turns a denial into an allow. |
| LeaseDecision.FirstUnmetRule | edge/src/modules.rs:625-640 | The denial reported is that of the first rule that is not both observed and met. |
| LeaseDecision.WhichDenial | edge/src/modules.rs:598-650 | Which refusal is given: unknown before any wiring, then the latch, the first module that is silent and must not be, the first rule unobserved or unmet, by its kind, and last that nobody is using the tool; what is not wired is allowed. |
| LeaseDecision.TripDecision | edge/src/modules.rs:608-640 | The decision is a trip on a condition if and only if a trip rule on it is the first thing wrong with the tool. |
| LeaseDecision.RenewLatchesExactly | edge/src/modules.rs:661-703 | A renewal latches a condition if and only if a trip on it is the first thing wrong and a trip rule on it latches; an existing latch is never replaced. |
| LeaseDecision.AMaskedTripIsForgotten | edge/src/modules.rs:625-699 | A six-call history in which a latching trip, firing behind an unobserved gate, leaves no latch, and the tool runs again with nothing reset. |
| LeaseDecision.LeaseIsLastRenewal | edge/src/modules.rs:661-703 | In every reachable state the lease held is the last renewal's expiry if that was allowed, and there is none otherwise. |
| LeaseDecision.LeaseIsADeadMansSwitch | edge/src/modules.rs:707-719 | In every reachable state a lease is valid if and only if the tool's last renewal was allowed and is younger than its ttl. |
| LeaseDecision.LatchLaw | edge/src/modules.rs:491-494 | In every reachable state an id is latched on a condition if and only if a renewal or tick tripped on it, that trip latching, and no reset has named that very id since. |
| LeaseDecision.OnlyLatchingRulesLatch | edge/src/modules.rs:682-699 | A tool no wiring of which has ever had a latching trip rule on a condition is never latched on it, however often it trips. |
| LeaseDecision.LatchPersists | edge/src/modules.rs:382-416 | Once a latching trip is reported, every later decision on the wired tool is that latch, through any readings, sessions and snapshots, until its id is reset. |
| LeaseReadings.ReadingIsMaximalRun | edge/src/modules.rs:431-446 | The stored reading is the latest value and the instant its unbroken run began, whatever was repeated. |
| LeaseReadings.RuleReadsTheDebouncedValue | edge/src/modules.rs:523-547 | A rule takes a new value for its negation until the debounce is over and for itself from then on, reads nothing where nothing was observed, and is met by the value where it asks for flow or authorization and by its absence where it names a hazard. |
| LeaseReadings.HeardIsTheLatestWord | edge/src/modules.rs:449-487 | In every reachable state a module was last heard when the latest word of it came, its own or that of a device it is then bound to, and never if none did. |
| LeaseReadings.SilenceDenies | edge/src/modules.rs:551-574 | A binding counts as silent if and only if it is a fail_off one, not the coordinator's, and no such word is younger than the timeout. |
| LeaseSessions.AnswerOnKey | edge/src/modules.rs:316-345 | What one answer leaves of a key: which stops are forgotten, when its claim is believed, when a local session survives. |
| LeaseSessions.SessionCallsAreOfOneResource | edge/src/modules.rs:250-274 | Opening or stopping a resource touches no other's session, claim or stop; the one stopped is in use no longer, and the one opened is until its session ends. |
| LeaseSessions.AnswerDecidesWhatItTracks | edge/src/modules.rs:316-365 | Where no stop is remembered and no session of the edge's own stands, a resource an answer tracks is in use if and only if the answer says so. |
| LeaseSessions.SnapshotDecidesItsRooms | edge/src/modules.rs:395-416 | So an until_stopped door is in use if and only if the snapshot says so, and the synced use of every other resource it lists is left as it was. |
| LeaseSessions.StopIsNotUndone | edge/src/modules.rs:250-416 | After a stop, through any run of answers asked for before it and come while it was remembered, and whatever the grace becomes, the resource is never in use and its tool is refused; only opening it again ends that. |
| LeaseSessions.StopHeldIsTheLast | edge/src/modules.rs:316-330 | The last stop is remembered if and only if no answer since has come once the grace then in force was over. |
| LeaseSessions.OlderAnswerReopensExactlyOnceForgotten | edge/src/modules.rs:324-345 | After any run that leaves a stop standing, an answer asked for before it and listing the resource brings it back if and only if that answer, or one since the stop, came once the grace then in force was over. |
| LeaseSessions.OlderAnswerReopensExactlyAfterGrace | edge/src/modules.rs:324-345 | In particular, where the grace has not changed since, exactly once it has passed. |
| LeaseSessions.AStopForgotten | edge/src/modules.rs:324-326 | A history, from the start, in which an answer asked for before a stop puts the resource back in use. |
| LeaseSessions.SwipeIsNotUndone | edge/src/modules.rs:316-365 | A session opened at a swipe survives every answer that arrives inside its grace and before its end. |
| LeaseSessions.AnswerLeavesUntrackedAlone | edge/src/modules.rs:316-345 | An answer never takes an untracked resource out of use, and leaves it wholly alone unless it claims it. |
| LeaseSessions.SnapshotClaimsOnlyWhatItTracks | edge/src/modules.rs:395-416 | A wiring snapshot claims only the rooms it tracks. |
| LeaseSessions.DisjointAnswersCommute | edge/src/modules.rs:316-345 | Two answers that track nothing in common, at one instant, leave the same store in either order. |
| LeaseSequencing.CommandOrder | edge/src/modules.rs:791-806 | Power bindings are commanded in stage and then name order, sensors in name order, those alike in the order they are wired in, each as often as it is wired. |
| LeaseSequencing.AllowedSinceBeginsTheRun | edge/src/modules.rs:816-821 | The sequencing clock is the tick where the run of allows still going on began, and runs exactly while there is one. |
| LeaseSequencing.RelayStateIsLatestReport | edge/src/modules.rs:350-355 | What is held of a relay is its device's latest report and when it came. |
| LeaseSequencing.ReadyMeansTurnHasCome | edge/src/modules.rs:822-904 | A binding is ready if and only if every lower stage's last report says on and came after the allow began, and the delay is over both from the allow and from each report. |
| LeaseSequencing.AllowTickIsInARun | edge/src/modules.rs:816-821 | Every allow is in a run of allows whose first tick is the instant the sequencing counts from. |
| LeaseSequencing.AllowTickGrantsInTurn | edge/src/modules.rs:816-856 | When a tool is allowed a power binding is granted exactly if its turn has come and withheld otherwise, after any history. |
| LeaseSequencing.AllowTickActions | edge/src/modules.rs:816-856 | The commands of an allow tick are all grants: to every sensor and to the power bindings whose turn has come, each once, and to no other. |
| LeaseSequencing.GrantsStandInOrder | edge/src/modules.rs:816-856 | An allow sends a grant to each power binding ruled granted and then to each sensor, in that order, each with its device, the ttl in whole milliseconds and no reason, and no more. |
| LeaseRunOn.RefusalStandsUntilAllow | edge/src/modules.rs:857-886 | A power binding refused by a denial is refused by every later tick until one allows the tool, while it stays that tool's with that run-on time. |
| LeaseRunOn.DenyTickActions | edge/src/modules.rs:857-890 | A denial sends one command to each power binding and then to each sensor, in order, with its device and the ttl: a grant to a power binding that still runs on, and to every other a refusal that gives the reason. |
| LeaseRunOnLaw.StoreIsTheHistory | edge/src/modules.rs:816-881 | A binding is held as granted if and only if some allow granted it and nothing has refused it since, and its run-on is held exactly while such a stop stands, counted from its first denial. |
| LeaseRunOnLaw.GrantedSinceTheFirst | edge/src/modules.rs:845-881 | It is held as granted since the earliest allow to have granted it with no refusal after. |
| LeaseRunOnLaw.RunOnLaw | edge/src/modules.rs:857-881 | A denial grants a power binding if and only if it has a run-on time, was granted by some allow and not refused since, and that time has not run out since the first denial after the last allow; for any binding that stays its tool's with that time, whatever else is rewired. |
| LeaseRunOnLaw.RunOnIsBounded | edge/src/modules.rs:857-886 | A denied tool's power binding is granted only within its run-on time of the first denial after the last allow, and only if no refusal has come after its last grant. |
| LeaseRunOnLaw.FirstDenialLaw | edge/src/modules.rs:857-868 | The denial that ends a run of allows grants a binding if and only if it has a run-on time and was granted, by whichever allow, and not refused since. |
| LeaseRunOnLaw.UngrantedRunOnLaw | edge/src/modules.rs:771-772 | A denial grants run-on to a binding the allow before it never granted if and only if the binding has a run-on time and the tick just before that allow still granted it. |
| LeaseRunOnLaw.RunOnWithoutAGrantInTheLastAllow | edge/src/modules.rs:819-872 | A nine-call history in which a plug is granted run-on though the last allow withheld it. |
| LeaseInterleaving.UninterruptedIsOneStep | edge/src/modules.rs:661-890 | A tick cut into its read, its write and its settling is, uninterrupted, the one step the serial engine takes. |
| LeaseInterleaving.SerialIsARun | edge/src/modules.rs:661-890 | Every history of whole ticks is one of the interleaved runs, ending in the same store. |
| LeaseInterleaving.TasksWereRead | edge/src/modules.rs:668-669 | A renewal under way carries what its own read decided, on the store that read found. |
| LeaseInterleaving.LeaseIsADeadMansSwitch | edge/src/modules.rs:661-719 | Whatever calls and ticks come between, a lease is valid if and only if the tool's last write carried an allow whose read its ttl still covers. |
| LeaseInterleaving.LatchLaw | edge/src/modules.rs:686-699 | Interleaved, an id is latched if and only if some write latched it and no reset has named it since. |
| LeaseInterleaving.OnlyReadsBeforeTheLatchAllow | edge/src/modules.rs:661-699 | While a latch stands every read of the tool denies; only a tick read before it can still allow. |
| LeaseInterleaving.StopIsNotUndone | edge/src/modules.rs:250-416 | Interleaved, a stopped resource stays out of use and is denied at every evaluation through any answers asked for before the stop and come while it was remembered. |
| LeaseInterleaving.OnlyReadsBeforeTheStopAllow | edge/src/modules.rs:661-669 | Only a tick read before the stop can still allow a stopped tool. |
| LeaseInterleaving.WhoStillAllowsAfterAStop | edge/src/modules.rs:781-786 | After a stop a renewal under way carries an allow if and only if it was read before the stop and allowed then. |
| LeaseInterleaving.WhatASettlingGrantsAfterAStop | edge/src/modules.rs:784-890 | What a tick under way grants after a stop: if it was read before and allowed then, the bindings that are ready; if not, those that still run on; and nothing else. |
| LeaseInterleaving.ATickUnderWayGrantsAfterTheStop | edge/src/modules.rs:781-782 | A run in which a stop falls between a tick's read and its settling, and the plug is granted after it. |
| LeaseLatchRaces.LatchIsATrippedRead | edge/src/modules.rs:661-703 | Interleaved, an id is latched on a condition if and only if some read tripped on it, the wiring its write found latches that trip, and no later write has latched the id nor any reset named it. |
| LeaseLatchRaces.ATrippedReadLatchesExactly | edge/src/modules.rs:685-699 | At its write a tripped read leaves the id latched on its condition if and only if the tool then wired has a rule that latches it or that latch stood already. |
| LeaseLatchRaces.AResetIsOvertaken | edge/src/modules.rs:668-699 | A run in which a reset comes between a tripped read and its write, and the tool ends latched. |
| LeaseLatchRaces.ATripWithoutItsRuleIsForgotten | edge/src/modules.rs:668-699 | A run in which the rule leaves the wiring between the two, and a reported trip leaves no latch. |
| LeaseSettling.SettlingsAreARun | edge/src/modules.rs:784-890 | To the bindings every interleaved run is a history of calls and of settlings that carry the decision read. |
| LeaseSettling.SettlingGrantsInTurn | edge/src/modules.rs:816-856 | However ticks overlap, an allowing settling grants a power binding exactly if its turn has come, counted from the first settling of the current run of allows. |
| LeaseSettling.SettlingRunOnLaw | edge/src/modules.rs:857-881 | However ticks overlap and whatever else is rewired, a denying settling grants a power binding if and only if it has a run-on time, was granted by some settling and refused by none since, and that time has not run out since the first denying settling after the last that allowed. |
| LeaseSettling.SettlingRefusalStands | edge/src/modules.rs:869-881 | A binding refused by one settling is refused by each that follows until one allows. |
| LeaseSettling.SettlingAfterAStop | edge/src/modules.rs:250-890 | What a settling grants after a stop, by the history alone: if it was read before the stop and allowed then, exactly the turns that have come since the run of allows began, and otherwise exactly the run-on that is left. |
| LeaseSettling.ReadingsIgnoreTicks | edge/src/modules.rs:431-446 | Whatever ticks are under way, a reading is the latest value and the instant its unbroken run began. |
| ModuleState.ModuleState.OpenSession | edge/src/modules.rs:250-261 | The fields after an open are the specified store, and the call joins the history. |
| ModuleState.ModuleState.CloseSession | edge/src/modules.rs:266-274 | The same of a close. |
| ModuleState.ModuleState.ReconcileTracked | edge/src/modules.rs:316-345 | The sessions, stops and synced use the reconcile loops leave are those specified. |
| ModuleState.ModuleState.ApplyStateAt | edge/src/modules.rs:395-416 | A snapshot replaces the wiring and reconciles its rooms, dated when it was asked for; after it an until_stopped door with no stop and no session of the edge's own is in use if and only if the snapshot says so. |
| ModuleState.ModuleState.SetLocalSessionGrace | edge/src/modules.rs:230-232 | Only the grace changes. |
| ModuleState.ModuleState.NoteRelayState | edge/src/modules.rs:350-355 | Only that device's report is replaced. |
| ModuleState.ModuleState.Observe | edge/src/modules.rs:431-446 | A reading is written only when its value changes. |
| ModuleState.ModuleState.NoteDeviceSeen | edge/src/modules.rs:469-487 | A device's report marks every binding it holds and no other, and answers how many those are. |
| LeaseEngine.HeldByMeans | edge/src/modules.rs:469-487 | The bindings counted are those the device holds anywhere in the snapshot. |
| ModuleState.ModuleState.NoteModuleSeen | edge/src/modules.rs:449-452 | Only that module's last hearing is replaced. |
| ModuleState.ModuleState.ResetLatch | edge/src/modules.rs:491-494 | Only the latch under that very id is removed. |
| ModuleState.ModuleState.Evaluate | edge/src/modules.rs:603-650 | The chain of early returns and its rule loop decide as specified. |
| ModuleState.ModuleState.Renew | edge/src/modules.rs:661-703 | Lease and latch after a renewal are those specified. |
| ModuleState.ModuleState.LeaseValid | edge/src/modules.rs:707-719 | The validity test is the specified one. |
| ModuleState.ModuleState.StartBase | edge/src/modules.rs:822-843 | The inner loop over lower stages, with its early stop, finds the instant a binding's delay counts from, or that it is blocked. |
| ModuleState.ModuleState.GrantReady | edge/src/modules.rs:822-850 | The loop over power bindings grants exactly those ready and records when each was first granted. |
| ModuleState.ModuleState.BeginRunOn | edge/src/modules.rs:858-868 | The first denial starts run-on for exactly the bindings granted that have one. |
| ModuleState.ModuleState.RefuseRest | edge/src/modules.rs:869-881 | The denial loop grants what still runs on and refuses the rest, in order. |
| ModuleState.ModuleState.LeaseSensors | edge/src/modules.rs:851-885 | Every sensor gets the decision's command, in order. |
| ModuleState.ModuleState.SettleAllow | edge/src/modules.rs:817-856 | The allow branch leaves the specified clocks and commands. |
| ModuleState.ModuleState.SettleDeny | edge/src/modules.rs:857-886 | The deny branch leaves the specified clocks and commands. |
| ModuleState.ModuleState.TickTool | edge/src/modules.rs:784-890 | One tool's share of a tick leaves the specified store and sends what its moment in the history calls for: its grants in order if it is allowed, and its refusals in order if not. |
| ModuleState.ModuleState.Tick | edge/src/modules.rs:773-890 | A tick is its tools' shares in snapshot order, each a step of the history; it sends what these moments call for one after the other, and for each tool denied every binding's command stands in it with its device, grant, ttl and reason. |
| LeaseRuns.EachFromTheLast | edge/src/modules.rs:783-786 | Each tool's share is taken on the store the share before it left. |
| LeaseRuns.EveryToolIsTicked | edge/src/modules.rs:783-792 | A pass over the wiring ticks every tool of it, and each finds itself wired. |
| LeaseRuns.SentInTurn | edge/src/modules.rs:784-890 | What each share sends stands together in what the tick sends. |
| ResourcePolicy.DecideMeans | edge/src/resources.rs:593-646 | Who is admitted, and when the server is asked: both directions, with lockout, deny list, hold, allow list, membership and availability in their order. |
| ResourcePolicy.RefusalsMean | edge/src/resources.rs:593-646 | Why a card is refused: the lockout, the disabled resource and the deny list before all, then, by the first member with that card, unknown, not active, not authorized, or the status the resource is in. |
| ResourcePolicy.AllowedStrike | edge/src/resources.rs:593-646 | A yes comes with the policy's own pulse if it has one, and the wiring's otherwise. |
| ResourcePolicy.EntriesMean | edge/src/resources.rs:194-215 | Each resource of a policy with an id is held in its place, field by field as it was sent; the others are left out. |
| ResourcePolicy.ApplyPolicyMeans | edge/src/resources.rs:406-449 | A policy older than what is applied changes nothing; any other leaves its entries, its principals, each with the ids of its own that parse, and its stamp if it has one. |
| ResourcePolicy.ApplySyncMeans | edge/src/resources.rs:218-233 | A sync leaves the doors as they were and then its tools, each with its status word, enabled, unlisted and unheld, and its users alone, field by field. |
| ResourcePolicy.ApplyDoorsMeans | edge/src/resources.rs:236-250 | A door snapshot older than what is applied changes nothing; any other leaves the tools and members as they were and its doors as it compiled them, field by field. |
| PolicyReplay.ArrivalOnDoors | edge/src/resources.rs:337-512 | One arrival replaces the door half exactly when it bears doors and is unstamped or not older than what was applied, and is remembered by its stamp if it has one. |
| PolicyReplay.DoorsFollowTheLastToLand | edge/src/resources.rs:337-512 | After any arrivals the doors are those of the last to land, where a payload lands if it is unstamped or no greater stamp came before it, and the stamp remembered is the greatest seen. |
| PolicyReplay.NewestIsLastToLand | edge/src/resources.rs:406-449 | Of the payloads with parseable stamps the newest is the last to land if and only if no policy with an unparseable stamp arrived after it. |
| PolicyReplay.DoorsFollowTheNewest | edge/src/resources.rs:337-512 | After any arrivals with parseable stamps the doors are those of the newest payload, the last of them to arrive. |
| PolicyReplay.DoorsConverge | edge/src/resources.rs:337-512 | Where no two stamps agree, histories that carry the same door-bearing payloads end with the same doors and stamp, whatever the order and however often each came. |
| PolicyReplay.UnstampedPolicyAlwaysLands | edge/src/resources.rs:406-449 | After any arrivals, a policy without a parseable stamp replaces the doors and leaves the greatest stamp in place. |
| AliasRefinement.PairDecidesAsThePolicy | edge/src/resources.rs:191-512 | For a policy the older payloads can carry, with unambiguous names, ingesting its sync and its door payload, whichever first, decides every scan as the policy does. |
| HoldPulses.PulseLength | edge/src/doors.rs:110-125 | How long a pulse is, given what is left of the window, and how that compares with the window's end. |
| HoldPulses.HoldTickOnDoor | edge/src/resources.rs:702-747 | What one pass sends one held door and remembers of it, whatever else the cache holds. |
| HoldPulses.HoldCoversTheWindow | edge/src/resources.rs:702-747 | With passes at most fifteen seconds apart, every instant from the first pass to a millisecond before the end is released, nothing before, and nothing past the end but by a pulse of the last millisecond. |
| HoldExactness.PulsesAreTheSenders | edge/src/resources.rs:718-747 | The pulses sent are those of the first pass and of each first pass a refresh after the last that sent, while the window is open. |
| HoldExactness.HoldExactness | edge/src/doors.rs:110-125 | The strike is released from the first pass to the window's end and at no other time if and only if some sending pass falls a whole number of milliseconds, no more than a full pulse, before the end, and none in its last millisecond. |
| HoldExactness.HoldIsExactOnWholeMilliseconds | edge/src/doors.rs:110-125 | In particular when every pass falls whole milliseconds before the end, as on a millisecond clock. |
| HoldExactness.FinerClockLeavesASliver | edge/src/doors.rs:118-124 | A run whose one sending pass is off the grid leaves the last half millisecond closed. |
| HoldExactness.OffTheGridAndExact | edge/src/doors.rs:118-124 | A run with a pass off the grid that is exact all the same, since that pass does not send. |
| ResourceCache.ResourceCache.ApplyPolicy | edge/src/resources.rs:406-449 | The policy's fields after an ingest, and that a stale one changes nothing. |
| ResourceCache.ResourceCache.ApplySyncAlias | edge/src/resources.rs:465-476 | A sync replaces the tools and members and leaves the doors. |
| ResourceCache.ResourceCache.ApplyDoorsAlias | edge/src/resources.rs:492-512 | A snapshot of doors replaces the doors unless it is stale, and leaves the tools and members. |
| ResourceCache.ResourceCache.ReplaceKind | edge/src/resources.rs:341-344 | The entries of one kind give way to the new ones and the rest stay in order. |
| ResourceCache.ResolveMeans | edge/src/resources.rs:526-576 | A name resolves unless neither wiring nor policy knows it; the wiring decides id, kind and profile whatever the policy says; the policy's pulse beats the strike's. |
| ResourceCache.StrikePulseMeans | edge/src/modules.rs:919-933 | The strike pulse is that of the first strike binding with one to give. |
| ResourceCache.ResourceCache.Decide | edge/src/resources.rs:593-646 | The decision read from the stores is the specified one. |
| ResourceCache.ResourceCache.OpenSession | edge/src/resources.rs:654-669 | A session is opened on the engine with the end its profile gives it. |
| ResourceCache.ResourceCache.CloseSession | edge/src/resources.rs:672-674 | The stop is passed to the engine. |
| ResourceCache.ResourceCache.Reconcile | edge/src/resources.rs:679-697 | A sync reconciles the engine over its own tools, dated when it was asked for; after it a tool it lists with no stop remembered and no session of the edge's own is in use if and only if the sync says in_use of it. |
| ResourceCache.ResourceCache.HoldPulsesAt | edge/src/resources.rs:702-711 | The enabled doors held now, with the pulse each is due. |
| ResourceCache.ResourceCache.SendHolds | edge/src/resources.rs:728-745 | The pulse loop updates what was sent and sends what is due as specified. |
| ResourceCache.ResourceCache.Tick | edge/src/resources.rs:718-747 | One pass is the engine's tick, with what its moments call for, followed by the hold pulses due. |
| ResourceCache.SyncClaimsOnlyWhatItTracks | edge/src/resources.rs:679-697 | A sync claims only tools it tracks. |
| ResourceCache.InUseIdsMean | edge/src/resources.rs:679-691 | The tools a sync claims are those, and only those, whose status is in_use. |
| ResourceCache.SyncDecidesItsTools | edge/src/resources.rs:679-697 | Where no stop and no session of the edge's own stands, what a sync says of a tool's use is what holds after it. |
| ResourceCache.MomentarySessionLastsThePulse | edge/src/resources.rs:654-669 | A momentary session nobody else claims is in use for exactly the strike pulse. |
| ResourceCache.OtherSessionsLast | edge/src/resources.rs:654-669 | Any other session lasts until it is stopped. |
| ScanInterleaving.AnswerIsAMixture | edge/src/resources.rs:593-646 | Whatever is written meanwhile, a scan answers by the policy it read last, for a resource as unlocked as it was when the power was read and wired as it was when the wiring was, all since it was asked. |
| ScanInterleaving.VerdictIsThatOfTheLastRead | edge/src/resources.rs:593-646 | Its verdict is the one all three stores would have given when the policy was read if and only if the lockout was then as it had been; the wiring decides no more than the pulse. |
| ScanInterleaving.OpeningIsAMixture | edge/src/resources.rs:654-669 | An opening ends its session by the wiring and the policy as each was read, and opens it under the id the name has when it writes. |
| ScanInterleaving.AYesOfNoInstant | edge/src/resources.rs:593-609 | A run in which a scan is allowed though at no instant would it have been. |
| LockDiscipline.ScriptIsOneAtATime | edge/src/resources.rs:406-747 | No operation asks for a lock while it holds one. |
| LockDiscipline.NoDeadlock | edge/src/resources.rs:526-646 | For any threads, operations and schedule, a waiting writer barring new readers: a thread that waits holds nothing, and while work is left some thread can move. |
| LockDiscipline.EveryRunEnds | edge/src/resources.rs:526-747 | Every run is no longer than its work, and one that long has finished every operation. |
| LockDiscipline.ReentrantDecideDeadlocks | edge/src/resources.rs:536-548 | A decision that takes the policy lock twice reaches, beside one door snapshot, a state in which no thread can move. |
| PowerState.OveragesAreExact | edge/src/power.rs:126-154 | A circuit is reported if and only if it has not tripped and the latest draws of the tools the snapshot puts on it together exceed its limit; no oftener than it is listed; and the report is sorted. |
| PowerState.CircuitOfMeans | edge/src/power.rs:129-140 | A tool's draw counts on the circuit its last entry with one gives it. |
| PowerState.DrawIsTheLatest | edge/src/power.rs:114-122 | What is held of a tool's draw is what was last recorded for it, over any run. |
| PowerState.DrawKeyMeans | edge/src/power.rs:114-122 | A draw is recorded for the first tool that answers to the name, and for the name itself where none does. |
| PowerState.LockedMeans | edge/src/power.rs:95-110 | A tool is locked by either name if and only if the server lists it or its circuit has tripped here; a name no tool has, if the server lists it; and nothing before a snapshot. |
| PowerState.TrippingAllIsAFixpoint | edge/src/mqtt.rs:773-777 | After every reported circuit is tripped a second pass reports nothing. |
| PowerState.TripLaw | edge/src/power.rs:52-160 | After any run a circuit stands tripped if and only if it was tripped, before or in it, and every snapshot since found it fully locked. |
| PowerState.SnapshotKeepsTrips | edge/src/power.rs:52-81 | A snapshot keeps a local trip if and only if it shows the circuit with tools and every one of them locked. |
| PowerState.TripIsSticky | edge/src/power.rs:52-160 | A trip lasts, and locks the circuit's tools by either name, until the server's next state to show the circuit in part unlocked or without tools. |
| PowerState.PowerState.ApplyState | edge/src/power.rs:75-81 | The store after a snapshot, its surviving trips among it. |
| PowerState.PowerState.ReportsLocked | edge/src/power.rs:52-70 | A circuit is locked if and only if it has tools and all of them are. |
| PowerState.PowerState.RecordDraw | edge/src/power.rs:114-122 | Only the latest draw of the tool the name resolves to is replaced. |
| PowerState.PowerState.MarkTripped | edge/src/power.rs:157-160 | Only that circuit's trip is added. |
| PowerState.PowerState.AskLocked | edge/src/power.rs:95-110 | Whether a tool is locked, by either name and by its circuit's local trip. |
| PowerState.PowerState.Totals | edge/src/power.rs:126-145 | The accumulated totals are the sums over each circuit's tools, whatever order the draws come out in. |
| PowerState.PowerState.EvaluateOverages | edge/src/power.rs:126-154 | The loops report what is specified. |
| PowerState.PowerState.FastTrip | edge/src/mqtt.rs:773-791 | Tripping what is over leaves nothing over. |
| Cmi5Terms.WordsRoundTrip | cmi5/src/manifest.rs:83-129 | Each moveOn and launchMethod word reads back as itself and nothing else reads as it. |
| Cmi5Validation.ValidateMeans | cmi5/src/validation.rs:93-160 | A statement is accepted if and only if it is that learner's, registration's and activity's, of the cmi5 category, with an AU verb and the result it demands; a failed binding is reported as that whatever the score. |
| Cmi5Validation.BindingViolations | cmi5/src/validation.rs:93-129 | Which violation is given for the actor, the registration, the activity, the category and the verb, in that order. |
| Cmi5Validation.ResultViolations | cmi5/src/validation.rs:131-157 | Which is given for the result once those are in order. |
| Cmi5Validation.SessionMachine.Apply | cmi5/src/validation.rs:200-253 | The flags after a statement, and its violation, are those specified. |
| Cmi5Validation.RefusalChangesNothing | cmi5/src/validation.rs:200-253 | A refused statement leaves the machine unchanged. |
| Cmi5Validation.AdvanceOnlyAdds | cmi5/src/validation.rs:200-269 | No statement undoes a flag, leaves both outcomes, changes anything once terminated, or unmeets a moveOn. |
| Cmi5Validation.ReplayIsLive | server/src/cmi5.rs:727-742 | The machine replayed from the stored log, past whatever verbs it refuses, is the live one. |
| Cmi5Validation.ReachableStates | cmi5/src/validation.rs:200-269 | In every reachable state there are not both outcomes and nothing came before initialized; a terminated state stands still and a met moveOn stays met. |
| Cmi5Validation.OutcomeIsInTheLog | cmi5/src/validation.rs:208-240 | An outcome on record has a moveOn statement of that verb in the log. |
| Cmi5Validation.BeginningAndEnd | cmi5/src/validation.rs:200-253 | Of any log: a session is initialized if and only if the log holds an initialized, and terminated if and only if a terminated follows one. |
| Cmi5Validation.OutcomesAreTheLog | cmi5/src/validation.rs:208-240 | Of any log: each outcome is held if and only if a moveOn statement told it while the session was open, and of passed and failed only the one that came first. |
| Cmi5Validation.SequenceRefusals | cmi5/src/validation.rs:200-253 | What is refused after a log and why: anything once it has ended, a second initialized, anything else before the first, a moveOn outcome against the one that stands, and other verbs. |
| Cmi5Recorder.Cmi5Service.Rebuild | server/src/cmi5.rs:727-741 | The replay loop leaves the machine of the registration's stored log. |
| Cmi5Recorder.Cmi5Service.RecordStatement | server/src/cmi5.rs:686-788 | Tables and answer after a call are those specified, error paths included; and what it stores is by the session's learner, of its registration and activity, no pass below its AU's score. |
| Cmi5Recorder.ValidForTheSession | server/src/cmi5.rs:705-714 | A statement is valid for a session if and only if it is by its learner's account on this site, of its registration and activity, and a pass not below the score its AU asks for; every field written out. |
| Cmi5Recorder.StoresExactly | server/src/cmi5.rs:693-752 | A call stores its statement, and under which id, if and only if it is valid, new and in sequence; otherwise it changes nothing, and answers why. |
| Cmi5Recorder.SatisfactionAnswers | server/src/cmi5.rs:754-787 | What the grant step answers in each case, the grant and the registration it leaves among it. |
| Cmi5Recorder.Cmi5Service.Satisfy | server/src/cmi5.rs:754-787 | The grant step's tables and answer are those specified, error paths included. |
| Cmi5Grants.OutcomeIsTheEvidence | server/src/cmi5.rs:727-757 | In a log kept by the recorder the machine has an outcome if and only if the log holds a validated moveOn statement for it. |
| Cmi5Grants.MoveOnIsTheEvidence | server/src/cmi5.rs:755-759 | A moveOn is judged met if and only if the log holds what it asks for. |
| Cmi5Grants.MeetsMeans | cmi5/src/validation.rs:260-269 | A moveOn is met if and only if the log holds the pass or completion its word asks for, by that learner's account, of that registration and activity, and with the score asked for. |
| Cmi5Grants.RecordGrantsWhatIsDue | server/src/cmi5.rs:705-787 | A refused or duplicate statement changes nothing; a stored one writes a grant if and only if the registration is then owed one, and the answer carries it. |
| Cmi5Grants.GrantsAreSoundAndUnique | server/src/cmi5.rs:686-788 | Over any run of launches, statements and mapping edits, a registration has at most one grant, exactly when it is satisfied, and each rests on a Normal launch and a log of validated statements meeting its moveOn. |
| Cmi5Grants.GrantsRestOnTheLog | server/src/cmi5.rs:686-788 | Over any such run, behind every grant stand a Normal launch of that session and the very statements its AU's moveOn word asks for, their fields written out. |
| Cmi5Races.EveryGrantIsEarned | server/src/cmi5.rs:686-788 | However the database statements of concurrent calls and edits to the mapping interleave, and whichever calls are abandoned, every grant is that learner's and rests on a Normal launch and validated statements meeting the moveOn. |
| Cmi5Races.GrantsRestOnTheLog | server/src/cmi5.rs:686-788 | The same of every race: by the learner's account on this site, of that registration and activity, and no pass below the score asked for. |
| Cmi5Races.InsertStoresExactly | server/src/cmi5.rs:727-752 | An insert stores the statement if and only if it is in sequence after the log that was read and its id is new. |
| Cmi5Races.StoredInSequence | server/src/cmi5.rs:727-775 | However the calls interleave, every AU statement stored was in sequence after its registration's log as some call read it, and every step granted was there when its grant was written. |
| Cmi5Races.GrantsWereMapped | server/src/cmi5.rs:697-775 | The step a grant names is one its AU was mapped to when some call for the registration began, however the mapping is edited meanwhile. |
| Cmi5Races.AtMostOneGrantExactlyWithoutOverlap | server/src/cmi5.rs:763-785 | In any race a registration has at most one grant if no call passed its check while another had passed and not marked it, a call abandoned after its write never marking it; and only if, where every call that passed has written. |
| Cmi5Races.TwoCallsGrantTwice | server/src/cmi5.rs:763-785 | From any point where two calls have stored what meets the moveOn, both may check before either grants, and two grants are written. |
| Cmi5DoubleGrants.OverlappingCallsGrantTwice | server/src/cmi5.rs:763-785 | A race from the opening, nothing abandoned and every call run to its end, that leaves two grants for one registration. |
| Cmi5DoubleGrants.CallsInTurnGrantTwice | server/src/cmi5.rs:771-785 | A race in which a call abandoned between its grant and its mark leaves a second, begun after it, to grant again. |
| ManifestRoundTrip.TextReads | cmi5/src/manifest.rs:592-617 | A text cut into text, CDATA and references in any way is read back whole. |
| ManifestRoundTrip.EachLangStringReads | cmi5/src/manifest.rs:539-564 | Written langstrings are read back in order, with the cursor past their wrapper. |
| ManifestRoundTrip.EachRefReads | cmi5/src/manifest.rs:567-585 | Written objective references are read back in order. |
| ManifestRoundTrip.CourseReads | cmi5/src/manifest.rs:326-363 | A written course is read back. |
| ManifestRoundTrip.EachObjectiveReads | cmi5/src/manifest.rs:365-402 | Written objectives are read back in order. |
| ManifestTrees.AuHeadReads | cmi5/src/manifest.rs:462-484 | A written start tag is read back if its score is in range, and is refused as a bad score otherwise. |
| ManifestTrees.AuReads | cmi5/src/manifest.rs:457-536 | A written AU is read back, with the cursor right after it. |
| ManifestTrees.BlockReads | cmi5/src/manifest.rs:404-455 | A written block of any depth is read back, with the cursor right after it. |
| ManifestTrees.ParsedScoresAreInRange | cmi5/src/manifest.rs:470-479 | Whatever event stream it came from, a parsed tree's mastery scores are in 0..1. |
| ManifestTrees.ManifestRoundTrips | cmi5/src/manifest.rs:292-782 | Parsing what was written, behind any prolog and with texts in any pieces, returns the tree and stops right after it if and only if its scores are in 0..1. |
| ManifestTrees.ReparsingChangesNothing | cmi5/src/manifest.rs:8-13 | Parse, serialize and parse again is the identity on whatever parses. |
| ManifestForeign.SkipPassesOver | cmi5/src/manifest.rs:621-637 | Skipping passes over well-formed content of any nesting and comes out at the same depth. |
| ManifestForeign.ForeignElementsAreSkipped | cmi5/src/manifest.rs:292-536 | Among the children of the structure, the course, an objective, an AU or a block, an element that this container does not read leaves what is parsed unchanged, though another container may read its tag. |
| ManifestForeign.ForeignWrappersAreTransparent | cmi5/src/manifest.rs:539-617 | Inside a title, a description, a text or a list of references an element is not skipped: unless its tags are ones that very place reads, what it holds is read exactly as if they were not there. |
| ManifestForeign.ObjectivesPassOver | cmi5/src/manifest.rs:365-402 | In the list of declared objectives such tags are passed over too, so an objective inside them is read. |
| ManifestDefaults.AttributeMeans | cmi5/src/manifest.rs:280-290 | Of readable attributes the first with the local name asked for is read, and none if there is none. |
| ManifestDefaults.UnreadableIsAnError | cmi5/src/manifest.rs:280-290 | One that cannot be read is an error where it stands, if its name cannot be told or is the one asked for. |
| ManifestDefaults.MoveOnMeans | cmi5/src/manifest.rs:467-469 | An AU's moveOn is what its tag says, one of five words, and NotApplicable where the tag says nothing. |
| ManifestDefaults.ScoreMeans | cmi5/src/manifest.rs:470-479 | Its mastery score is what its tag says, a number from 0 to 1, and none where the tag says nothing. |
| ManifestDefaults.LaunchMethodMeans | cmi5/src/manifest.rs:480-483 | So is its launch method, one of two words. |
| ManifestDefaults.AuHeadMeans | cmi5/src/manifest.rs:462-484 | A start tag is refused for the first thing wrong with it, and taken as it says otherwise. |
| ManifestDefaults.AbsentAttributes | cmi5/src/manifest.rs:457-536 | Whatever stands in an AU, of what its tag leaves out the AU parsed has no criterion, no score and no launch method. |
| ManifestDefaults.LangStringDefaults | cmi5/src/manifest.rs:539-564 | A langstring that gives no language has the empty one, and one that closes itself the empty text. |
| ManifestDefaults.ReferenceMeans | cmi5/src/manifest.rs:567-585 | A reference is to the idref, or failing that to the id. |
| ManifestDefaults.SelfClosingTexts | cmi5/src/manifest.rs:500-522 | A url, launchParameters or entitlementKey that closes itself is the empty text, as one opened and closed at once is. |
| ManifestDefaults.SelfClosingContainers | cmi5/src/manifest.rs:326-536 | A course or a block that closes itself is empty, and an AU that does has no url. |
| ManifestDefaults.IdsAreRequired | cmi5/src/manifest.rs:326-466 | A course, a block, an AU or a declared objective without an id is refused for that. |
| ManifestDefaults.UrlIsRequired | cmi5/src/manifest.rs:486-536 | So is an AU with no url among what follows, and for that if nothing else is wrong with it. |
| ManifestDefaults.CourseIsRequired | cmi5/src/manifest.rs:292-324 | So is a structure with no course among what follows. |
| ManifestDefaults.ReferencesInText | cmi5/src/manifest.rs:592-617 | A reference in a text stands for its character or for one of the five predefined entities; any other entity is an error that names it. |
| ManifestDefaults.NoRoot | cmi5/src/manifest.rs:241-257 | A document without a root element is refused for that. |
| ManifestDefaults.CutShort | cmi5/src/manifest.rs:241-637 | A document cut short is refused for the element it is cut in, and a failing read for its own reason. |
| ManifestDefaults.WrittenRoot | cmi5/src/manifest.rs:648-667 | A document is written as one courseStructure of the cmi5 namespace. |
| ManifestDefaults.WrittenAuTag | cmi5/src/manifest.rs:716-727 | An AU's tag is written with its id and its moveOn always, with its score and launch method if it has them, and with nothing else. |
| ManifestAlike.PrefixesMakeNoDifference | cmi5/src/manifest.rs:5-8 | Two event streams that agree but for the namespace prefixes of their names parse alike, to the value, the cursor and the error. |
| ManifestAlike.DefaultsMakeNoDifference | cmi5/src/manifest.rs:467-469 | Leaving out a moveOn that says NotApplicable, or a lang that says nothing, anywhere in a document, changes neither the structure parsed nor the error. |
| ManifestAlike.ForeignElementsMakeNoDifference | cmi5/src/manifest.rs:241-637 | Taking out an element that holds no text and nothing the reader knows, anywhere in a document, changes neither the structure parsed nor the error. |
| ManifestReader.Reader.SkipToEnd | cmi5/src/manifest.rs:621-637 | The depth-counting loop ends where specified. |
| ManifestReader.Reader.ParseText | cmi5/src/manifest.rs:592-617 | The text loop, its unknown entities and its end of document, as specified. |
| ManifestReader.Reader.ParseLangStrings | cmi5/src/manifest.rs:539-564 | The loop over langstrings agrees with the specification. |
| ManifestReader.Reader.ParseObjectiveRefs | cmi5/src/manifest.rs:567-585 | The loop over references agrees with the specification. |
| ManifestReader.Reader.ParseObjectives | cmi5/src/manifest.rs:365-402 | The loop over objectives agrees with the specification. |
| ManifestReader.Reader.ParseObjective | cmi5/src/manifest.rs:374-389 | The inner loop over one objective's children agrees with the specification. |
| ManifestReader.Attribute | cmi5/src/manifest.rs:280-290 | The attribute loop finds the first by local name, or the error before it. |
| ManifestReader.Reader.ParseCourse | cmi5/src/manifest.rs:326-363 | The loop over a course's children agrees with the specification. |
| ManifestReader.Reader.ParseAu | cmi5/src/manifest.rs:457-536 | Attributes, their errors in order, and children agree with the specification; an AU whose readable tag gives no moveOn, score or launch method has NotApplicable, none and none. |
| ManifestReader.Reader.AuChildren | cmi5/src/manifest.rs:500-522 | The loop over an AU's children agrees with the specification. |
| ManifestReader.Reader.ParseBlock | cmi5/src/manifest.rs:404-455 | The recursive loop over a block's children agrees with the specification. |
| ManifestReader.Reader.ParseStructure | cmi5/src/manifest.rs:292-324 | The top loop and the required course agree with the specification. |
| ManifestReader.Reader.ParseManifest | cmi5/src/manifest.rs:241-257 | The search for the root agrees with the specification, cursor and error both. |
| ManifestWriter.Writer.WriteAu | cmi5/src/manifest.rs:716-741 | What is appended for an AU, its optional attributes and elements included. |
| ManifestWriter.Writer.WriteCourse | cmi5/src/manifest.rs:671-679 | What is appended for a course. |
| ManifestWriter.Writer.WriteEachObjective | cmi5/src/manifest.rs:681-693 | What the loop over objectives appends. |
| ManifestWriter.Writer.WriteEachLangString | cmi5/src/manifest.rs:743-761 | What the loop over langstrings appends. |
| ManifestWriter.Writer.WriteEachRef | cmi5/src/manifest.rs:763-775 | What the loop over references appends. |
| ManifestWriter.Writer.WriteBlock | cmi5/src/manifest.rs:702-714 | What is appended for a block of any depth. |
| ManifestWriter.Writer.WriteStructure | cmi5/src/manifest.rs:648-667 | The events appended are exactly those the round trip is proved of. |
| Navigation.DescendKeepsTheInsert | css_lib/src/nav.rs:78-80 | A step of the cursor makes the next folder and changes nothing about where the page will end up. |
| Navigation.Walk | css_lib/src/nav.rs:98-102 | The cursor walk puts the page at its path, making folders on the way. |
| Navigation.Render | css_lib/src/nav.rs:115-140 | The recursive rendering with its pushed and sorted children is the specified node. |
| Navigation.RenderChildren | css_lib/src/nav.rs:119-127 | The loop over children in key order pushes each one's node but an adopted index's. |
| Navigation.BuildNavigation | css_lib/src/nav.rs:90-112 | The items returned are the rendering of the trie of the pages. |
| NavigationOnce.NothingElseIsLost | css_lib/src/nav.rs:115-140 | For every trie: what a node lists plus what was nested below adopted indexes is, counted with multiplicity, what the folder holds. |
| NavigationOnce.HeldInsert | css_lib/src/nav.rs:98-102 | Placing a page adds its slug to what is held and takes away that of the page it displaces. |
| NavigationOnce.HeldBuild | css_lib/src/nav.rs:90-112 | The trie holds every page given if and only if each has a path of its own. |
| NavigationOnce.LostMeansNested | css_lib/src/nav.rs:116-123 | Nothing is lost if and only if no page is nested under an index its folder adopts. |
| NavigationOnce.EveryPageExactlyOnce | css_lib/src/nav.rs:24-28 | The tree lists every page exactly once if and only if each has a path of its own and none is nested under an adopted index. |
| NavigationOnce.AnAdoptedIndexDropsWhatIsBelowIt | css_lib/src/nav.rs:121-123 | Two pages of which the tree shows one. |
| NavigationOnce.SegmentsOfJoin | css_lib/src/nav.rs:94 | A normalised slug is read back as the segments it was joined from. |
| NavigationOnce.SegmentsOfAny | css_lib/src/nav.rs:94 | In any slug the segments are what stands between its slashes, in order, the empty ones left out. |
| NavigationOrder.OrderDoesNotMatter | css_lib/src/nav.rs:90-112 | Pages with paths of their own give the same navigation for every permutation. |
| NavigationOrder.NavigationIsSorted | css_lib/src/nav.rs:111-128 | Entries stand in title order at every depth. |
| NavigationPlace.FolderStands | css_lib/src/nav.rs:90-140 | Every folder has its entry under those of the folders above it, from the top down, each with the title, link and path of the page there, of the index inside, or of its own name; unless an adopted index is on the way. |
| NavigationPlace.EntryHasAFolder | css_lib/src/nav.rs:90-140 | And every entry, at any depth, is that of such a folder. |
| NavigationPlace.PageStands | css_lib/src/nav.rs:90-140 | A page no later one displaces, and nested under no adopted index, is shown with its own title, link and path, one entry for each folder of its path, or at its folder if it is the index that one adopts. |
| NavigationPlace.HeadingOfWords | css_lib/src/nav.rs:162-176 | Words joined by dashes or underscores become a heading, each with its first letter raised and spaces between. |
| NavigationPlace.FirstPageIsFirst | css_lib/src/nav.rs:147-154 | The page a folder takes its path from is the first below it, folders before what they hold and in the order of their names. |
| NavigationPlace.PathOnDisk | css_lib/src/nav.rs:145-159 | That path is as many segments of the page's as the folder lies deep. |
| Ordering.BeforeMeans | css_lib/src/nav.rs:111 | Text order: one text comes before another if it begins it, or by the first character in which they differ. |
| Ordering.SortIsStable | css_lib/src/nav.rs:111 | Sorting keeps those that stand together in the order they came. |

## Left out

- Transport, storage and configuration: MQTT, HTTP, WebSocket, TLS, the database, files, the command line and the web front end.
- ModuleState.ModuleState.Renew: evaluation and write are one step of the class, though the source releases its lock between them; `LeaseInterleaving` models the gap on values.
- ModuleState.ModuleState.TickTool: one step of the class, for the same reason.
- ModuleState.ModuleState.Tick: the shares of its tools are its steps, for the same reason.
- ResourceCache.ResourceCache.ApplyPolicy: member names and the allow-list handed on to the kiosk are not modelled, since no decision reads them.
- ResourceCache.ResourceCache.ApplySyncAlias: member names and the allow-list mirror, likewise.
- Integer widths and date overflow: `i32` and `i64` fields and date arithmetic are unbounded integers.
- Clock resolution in the lease engine: instants are whole milliseconds; only `HoldPulses` models a finer clock.
- `note_session`, `power_modules`, `is_latched`, `has_state` and the byte-parsing wrappers: one-line calls to what is modelled.
- `apply_state` without a request time: `ModuleState.ApplyStateAt` with none given.
- The kiosk shape the resource cache can be read as: written for another program.
- Parsing of UUIDs and RFC 3339 stamps: a payload carries the parsed value or none.
- The card digest: a function given to `Decide`, which may fail.
- Spawning the report of a fast trip to the server: I/O.
- Failing database statements in `record_statement`: in `Cmi5Recorder` and `Cmi5Grants` a call is one step whose writes succeed. `Cmi5Races` cuts it into its statements and lets calls be abandoned at any.
- Cmi5Races.AtMostOneGrantExactlyWithoutOverlap: the converse is for races in which no call for the registration ends between its check and its write, abandoned or finding its step gone, since of two that overlap one may.
- The score recorded with a grant, the expiry of credentials, and the State API.
- AU attributes that no call changes: a course import replaces nothing a registration refers to, so an AU's mastery score and moveOn are fixed while its step mapping is edited.
- XML tokenizing: the reader works on events; escaping, attribute-value normalization, line-end handling and the source text of errors are not part of this model. Numeric references arrive resolved or as bad.
- Floating point: scores, draws and limits are reals. A mastery score's printed form is read back by a given codec, required to be its inverse on the scores of the tree at hand.
- NavigationPlace.HeadingOfWords: raises ASCII letters only; Unicode case mapping is not part of this model.
- Aliasing of the trie cursor: the trie is a value owned by one variable, and the mutable cursor is the path walked so far.
- `server/src/access_engine.rs`: a precedence chain over schedules and rules defined elsewhere.
- `cmi5/src/launch.rs`, `cmi5/src/conformance.rs`, `css_lib/src/capabilities.rs`: launch URLs, package checks and feature flags, which none of the five subsystems reads.
- LeaseRunOnLaw.RunOnLaw: for a binding that stays the same tool's with the same run-on time, since moving it or changing that time while it runs changes when it ends; so are the laws that rest on it.
