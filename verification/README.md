# Reconcilers of provider-sonarqube, modelled and proved in Dafny

The provider makes a remote SonarQube agree with a declared spec. This project models its three
reconcilers (quality-gate conditions, quality-profile rules, settings) and the paginated rule search,
and proves what whole reconciles guarantee: convergence, progress under any pattern of failing calls,
independence of map iteration order, and exactly on which inputs each of these holds.

## How it is organised

| file | content |
|---|---|
| `Basics.dfy`, `Pairing.dfy` | options, iteration orders, work lists; association maps and the loops over them, which gate and profile share |
| `QualityGateModel.dfy` | declared and observed conditions, ID adoption, the association map, the plan read off it |
| `QualityGatePlan.dfy` | server calls, traces, and which calls a plan allows |
| `QualityGateMismatch.dfy`, `QualityGateAdoption.dfy`, `QualityGateTheory.dfy` | the distance between spec and server, its conservation along every trace, and Observe's view of it |
| `QualityGateOrder.dfy` | what any run leaves, in closed form, and independence of iteration order, for every list of conditions |
| `QualityGateRounds.dfy`, `QualityGateConvergence.dfy` | repeated reconciles, and exactly when and in how many rounds they converge |
| `QualityGateFailures.dfy` | the same with rounds that stop at a failed call in any places |
| `QualityGateExact.dfy`, `QualityGateWitnesses.dfy` | exactly when deleting before creating is enough and late initialisation keeps IDs apart; inputs that break the general claims |
| `QualityGateRekeying.dfy`, `QualityGateServer.dfy`, `QualityGateClient.dfy`, `QualityGateController.dfy`, `QualityGateReconcile.dfy` | the code: the re-keyed map, a server object, the helpers' loops, the external client, the reconcile loop |
| `QualityProfileRules.dfy` | the paginated search and rule observations |
| `QualityProfileModel.dfy`, `QualityProfileTrace.dfy`, `QualityProfileTheory.dfy`, `QualityProfileConvergence.dfy`, `QualityProfileRounds.dfy` | rules: comparison, late initialisation, association map, traces, error conservation, round trip, exact convergence over one and over any number of rounds |
| `QualityProfileServer.dfy`, `QualityProfileController.dfy`, `QualityProfileReconcile.dfy` | a server object that lists its rules in pages, the external client and the reconcile loop |
| `Settings.dfy`, `SettingsController.dfy` | settings: drift, repair, reset, field-value merge, whole reconciles |

The shape is the same throughout. Objects the source updates in place (managed resources, association
maps, the remote server) are classes; every `range` over a map takes its keys in an arbitrary order;
pointers into a slice are indices, so two equal entries stay different pointers; nil is `None`. The
methods are proved to perform a trace of calls that a plan allows, whatever the order and whichever
calls fail. The main results are lemmas about all such traces.

## What is assumed of the server

- A call either fails and changes nothing, or succeeds. Which of the two is arbitrary for every call.
- A condition stores the metric, error and operator that were sent; an operator that was not sent is the server's choice.
- Condition IDs the server hands out are not empty, do not start with `new:`, and were never used before (`Sane`, `MayIssue`). Nothing is assumed of the IDs in a spec.
- A new gate or profile is not the default. A gate name that is empty or taken is refused.
- A declared operator is not the empty string; the API admits only `LT` and `GT`.
- An activated rule stores every field that was sent; fields that were not sent are the server's choice.
- A rule search lists, page by page, what is active while it runs; any page may fail.
- A settings server stores exactly what is sent and lists only the keys it was asked for.
- Nobody else changes the remote side during the reconciles a statement speaks about. Update works on the status of the preceding Observe.

## What the proofs found

- However the server answers and in whatever orders, `n` error-free rounds are certain to bring a gate's conditions in bijection with the spec if and only if no two specs can be taken for one condition and at most `n` specs without a condition share an association key (`InSyncAfterExactly`). If two specs can be taken for one condition, no number of rounds is certain to do (`EventuallyInSyncExactly`): two specs hold one valid ID, a condition still to be created equals what another is about to be written to, or a spec holds an ID the server has yet to hand out while another spec is still to be created. One round is certain to do exactly when in addition the keys are distinct (`ConvergesExactly`). Distinct metrics and distinct IDs that the server has handed out and that keep their metric are enough (`HandedOutIdsConverge`; exactly when, for such lists: `LateInitInjectivity`).
- Reconciles that stop at a failed call cost a gate nothing but themselves: whatever stops in between, as many completed rounds as specs wait under one key bring it in sync, if no two specs can be taken for one condition (`InSyncDespiteFailures`).
- Every gate goes quiet: on any list, with one round more than there are specs without a condition, every spec has one and Observe finds all conditions up to date (`GoesQuiet`). That verdict means in sync only together with distinct keys (`SyncedExactly`); otherwise two declarations share a condition and nothing is ever reported.
- Two new conditions on one metric are not in sync after one round. With different thresholds they are after two; with equal ones they share one condition for good, reported up to date from the second round on (`TwoNewConditionsShareAKey`, `TwoThresholdsTakeTwoRounds`, `TwoEqualDeclarationsNeverSync`).
- Map order never decides which of several conflicting declarations wins: that holds for every spec list (`SameWorkInAnyOrder`, `OrderIndependence`).
- Deleting before creating does not always avoid metric clashes: on any list, a creation call meets a remote condition with its metric exactly when a valid spec ID named one at the start, as after editing a metric, because updates come last, or one was created before for another spec (`CreateMeetsMetricExactly`, `EditedMetricIsMet`, `StaleIdsMeetEachOther`). With distinct metrics and valid IDs that keep theirs it does (`CreateFindsMetricFree`).
- A gate with `default: false` that is the default, or whose name differs, is out of date after every number of reconciles without a failed call (`ReconcileAndObserve` of the gate). After a failed show the code creates a gate of the declared name instead.
- A declared empty ID keeps its entry in the association map when its condition is created, so the map then has one entry more (`RekeyedCount`).
- A rule that declares something that is not sent (severity beside impacts, or an empty severity, impacts or parameters) is stuck: no number of error-free reconciles is certain to repair it, and every other rule is repaired by the first reconcile whose call for it does not fail (`RepairedExactly`, `StaleAfter`).
- Once late initialisation has filled in observed impacts, severity is never sent again, so severity drift of such a rule is not repaired even by a server that keeps what is not sent (`KeepingServerRepairsExactly`).
- Update sets a profile as default under its new name before renaming it. Against a server that accepts that call for a name this profile does not have yet, a renamed default profile needs a second Update and no third (`FieldsAfterUpdateExactly`, `FieldsAfterUpdatesExactly`); where the call is refused, Update ends there and never reaches the rename (`External.Update`).
- Filling in impacts alone is not reported as late initialisation (`ReportedExactly`).
- The rule search never ends if the reported total exceeds the rules there are (`FetchTerminatesExactly`).
- A Set replaces the whole setting: fields that are not declared are empty afterwards, whatever they held (`SetStoresDeclaredAlone`, `ReconcileAndObserve` of the settings).
- A gate declared without a default that is the server's default, under another name than its external one, loses it: late initialisation fills in true, and Update makes the gate of the declared name the default, if the server has one (`DefaultFilledIn` in `ReconcileAndObserve` of the gate).
- A setting declared without content that the server does not list is out of date for Observe and never set by Update (`DetectionIsRepairExactly`). Obsolete keys are never reset, because Observe asks only for declared keys; this is what the warning in `apis/instance/v1alpha1/settings_types.go:40` says, while the comment on `resetObsoleteSettings` promises the opposite.

## Model

| member | source | states |
|---|---|---|
| QualityGateModel.AssociateSpecsFaithful | internal/clients/instance/qualitygate_condition.go:136-175 | For every input: an observed entry sits under its ID, a pointer is stored under its spec's own key, an outdated entry's spec carries the key as ID, and the keys are the observed IDs and the spec keys |
| QualityGateModel.LastObservationWins | internal/clients/instance/qualitygate_condition.go:136-145 | Of several observations with one ID the map keeps the last |
| QualityGateModel.VerdictIsEmptyPlan | internal/clients/instance/qualitygate_condition.go:178-226 | The three Find lists are disjoint, together they are the entries not up to date, and the verdict holds exactly when all are empty |
| QualityGateModel.EverySpecRepresentedIffKeysDistinct | internal/clients/instance/qualitygate_condition.go:147-172 | No spec is overwritten in the map exactly when the association keys are distinct |
| QualityGateAdoption.FirstMatchIsFirst | internal/clients/instance/qualitygate.go:138-148 | The ID search yields the first observation with equal metric and error and compatible operator, and nothing only if there is none |
| QualityGateAdoption.AdoptIsClaim | internal/clients/instance/qualitygate.go:163-177 | A spec keeps a valid ID, keeps its ID if nothing matches, and otherwise adopts the ID of a remote condition it agrees with |
| QualityGateAdoption.LateInitIdempotent | internal/clients/instance/qualitygate.go:153-178 | A nil default becomes the observed flag and a declared one stays, conditions change only in nil or stale IDs, and repeating it on any listing of the same conditions changes nothing |
| QualityGateAdoption.AdoptionKeepsMismatch | internal/clients/instance/qualitygate.go:153-178 | Observing in the middle of a run keeps the invariant and the distance to the declared state, also for specs that share a key |
| QualityGateAdoption.AssociationShape | internal/clients/instance/qualitygate_condition.go:136-175 | Closed form of the map: each key holds its observation, the last spec with that key, and whether they agree |
| QualityGateAdoption.PlanWithinMismatch | internal/clients/instance/qualitygate_condition.go:136-226 | The work read off the map is part of the distance computed from the remote state alone, and all of its deletions |
| QualityGateAdoption.AssociationPlanIsMismatch | internal/clients/instance/qualitygate_condition.go:136-226 | With distinct keys it is all of that distance |
| QualityGateAdoption.PlanItems | internal/clients/instance/qualitygate_condition.go:147-226 | Of the specs that share a key only the last is created or updated, and which of the two its own state decides |
| QualityGatePlan.RunSendsSpecs | internal/clients/instance/qualitygate_condition.go:55-81 | Every call of a run carries its spec: a creation names this gate, an update the condition of the spec's ID, both the declared metric and error, and the operator only if it is declared |
| QualityGatePlan.ErrorNamesCall | internal/controller/qualitygate/qualitygate.go:348-430 | The error of a failed call tells its kind, and the condition or the gate it was about |
| QualityGateMismatch.CreateStep | internal/controller/qualitygate/qualitygate.go:369-411 | A successful creation removes exactly its spec from the distance and keeps the invariant |
| QualityGateMismatch.RunConserves | internal/controller/qualitygate/qualitygate.go:319-345 | Along every trace of a plan within the distance, with failures anywhere, the distance at the state reached is that at the start without what the calls struck off, and the rest of the plan is within it |
| QualityGateMismatch.PlanIsMismatch | internal/controller/qualitygate/qualitygate.go:319-345 | Along every trace, with failures anywhere, what is left of the plan is the distance at the state reached |
| QualityGateTheory.NextPlanIsWhatWasLeft | internal/controller/qualitygate/qualitygate.go:165-345 | The next Observe plans exactly what this sync left undone |
| QualityGateTheory.Convergence | internal/controller/qualitygate/qualitygate.go:165-345 | The second Observe finds conditions up to date if and only if the sync finished, and then spec and server are in bijection and later observations are a fixpoint |
| QualityGateTheory.RunSpendsPlan | internal/controller/qualitygate/qualitygate.go:347-430 | Each successful call lowers the plan by one, a failed call by none, and an error means something is left |
| QualityGateTheory.SessionConservation | internal/controller/qualitygate/qualitygate.go:165-345 | Over any number of reconciles with any failures, distance plus successful calls is constant, also while specs wait under a shared key |
| QualityGateTheory.DoneAndLeftSplitPlan | internal/controller/qualitygate/qualitygate.go:347-430 | The IDs deleted and specs created and updated, and those left, split the plan |
| QualityGateTheory.HeldIsUntouched | internal/controller/qualitygate/qualitygate.go:319-345 | A condition that agreed with its spec at the start is never written or deleted by a plan within the distance |
| QualityGateOrder.RunEndsAs | internal/controller/qualitygate/qualitygate.go:319-430 | Closed form of the gate after any run, failed or not: old conditions but for the deleted ones, updates as written, one new ID per creation, everything else untouched |
| QualityGateOrder.ListingDoesNotMatter | internal/clients/instance/qualitygate_condition.go:136-175 | The association map does not depend on the order in which the server lists its conditions |
| QualityGateOrder.SameWorkInAnyOrder | internal/clients/instance/qualitygate_condition.go:189-226 | For every list of specs and any two orders: the same IDs deleted, the same specs created and updated, in equally many calls |
| QualityGateOrder.OrderIndependence | internal/controller/qualitygate/qualitygate.go:319-430 | For every list of specs and any two orders, against a server that stores alike: the same gate up to the names of the new conditions, one for each created spec |
| QualityGateRounds.RoundSettles | internal/controller/qualitygate/qualitygate.go:165-345 | After a finished round each spec keeps a valid ID and agrees with it, holds the condition created for it, or is still without one |
| QualityGateRounds.NextUntangled | internal/controller/qualitygate/qualitygate.go:165-345 | Rounds never make two specs fit one condition that did not before |
| QualityGateRounds.NextWaiting | internal/controller/qualitygate/qualitygate.go:369-411 | A round creates a condition for exactly one of the specs that wait under a key |
| QualityGateRounds.OrderIndependenceBySpec | internal/clients/instance/qualitygate_condition.go:189-226 | Spec by spec: after two rounds in any orders the same specs hold a condition, the very same one wherever declared operator, start or like answers decide |
| QualityGateConvergence.InSyncAfterExactly | internal/controller/qualitygate/qualitygate.go:165-345 | For every spec list an Observe can leave: n rounds are certain to end in bijection if and only if no two specs can be taken for one condition and at most n wait under one key |
| QualityGateConvergence.EventuallyInSyncExactly | internal/controller/qualitygate/qualitygate.go:165-345 | Some number of rounds is certain to do if and only if no two specs can be taken for one condition |
| QualityGateConvergence.ConvergesExactly | internal/controller/qualitygate/qualitygate.go:165-345 | One round is certain to do if and only if keys are distinct, no spec has a rival and no spec holds an ID another creation could bring |
| QualityGateConvergence.WaitingAfter | internal/controller/qualitygate/qualitygate.go:165-345 | After n rounds exactly n fewer specs wait under each key, down to none |
| QualityGateConvergence.SharedForGood | internal/clients/instance/qualitygate.go:163-177 | Two specs that hold one valid ID hold it after any number of rounds and are never in sync |
| QualityGateConvergence.GoesQuiet | internal/controller/qualitygate/qualitygate.go:165-345 | On every spec list an Observe can leave, after one round more than specs without a condition each spec has one and the verdict on conditions is up to date; they are in sync if and only if keys are distinct |
| QualityGateConvergence.QuietStays | internal/controller/qualitygate/qualitygate.go:165-345 | Once the verdict on conditions is up to date, a round makes no call and changes nothing, on any list |
| QualityGateConvergence.SyncedExactly | internal/clients/instance/qualitygate_condition.go:178-186 | Conditions are in bijection with the spec exactly when the verdict is satisfied and keys are distinct |
| QualityGateConvergence.SyncedIsFixpoint | internal/controller/qualitygate/qualitygate.go:165-345 | Once in sync, a round makes no call and changes neither spec nor server |
| QualityGateFailures.AttemptKeeps | internal/controller/qualitygate/qualitygate.go:165-345 | Wherever a round stops, no two specs come to fit one condition, and the distance is what the calls left of it |
| QualityGateFailures.AttemptsKeep | internal/controller/qualitygate/qualitygate.go:165-345 | After any number of such rounds no spec waits under a key that did not before |
| QualityGateFailures.InSyncDespiteFailures | internal/controller/qualitygate/qualitygate.go:165-345 | With failed rounds anywhere between, as many completed rounds as specs wait under one key end in bijection, and later rounds keep it |
| QualityGateExact.CreateMeetsMetricExactly | internal/controller/qualitygate/qualitygate.go:329-411 | On every spec list, a creation call meets an existing condition of its metric exactly when a valid spec ID named such a condition at the start or one was created before |
| QualityGateExact.CreateFindsMetricFree | internal/controller/qualitygate/qualitygate.go:329-411 | With distinct metrics, and valid IDs that keep theirs, no creation meets a condition of its metric |
| QualityGateExact.AdoptedIdsDistinctExactly | internal/clients/instance/qualitygate.go:153-178 | IDs stay distinct through late initialisation exactly when nobody adopts an ID that is already a valid spec ID and no two specs adopt the same one |
| QualityGateExact.LateInitInjectivity | internal/clients/instance/qualitygate.go:153-178 | With distinct metrics, distinct IDs and IDs that keep their metric, late initialisation gives no two specs one ID; some number of rounds is then certain to do if and only if no ID in the spec is still to be handed out, and one round if and only if besides no spec holds another one's placeholder key |
| QualityGateExact.HandedOutIdsConverge | internal/clients/instance/qualitygate.go:153-178 | If besides every ID in the spec was handed out by the server, one round is certain to do |
| QualityGateExact.FinishedSize | internal/controller/qualitygate/qualitygate.go:319-345 | For every spec list a finished sync leaves one remote condition per association key |
| QualityGateClient.GenerateConditionsAssociation | internal/clients/instance/qualitygate_condition.go:136-175 | The loops build the map of the model |
| Pairing.FindNonExisting | internal/clients/instance/qualitygate_condition.go:189-199 | Some enumeration of exactly the entries with a spec and no observation |
| Pairing.FindMissing | internal/clients/instance/qualitygate_condition.go:202-212 | Some enumeration of exactly the entries with an observation and no spec |
| Pairing.FindNotUpToDate | internal/clients/instance/qualitygate_condition.go:216-226 | Some enumeration of exactly the entries with both sides that disagree |
| Pairing.FindKeyOf | internal/controller/qualitygate/qualitygate.go:377-385 | A key under which the spec is found, in whatever order the map is searched, and the empty string only if it is under none |
| QualityGateClient.BuildObservationIdSet | internal/clients/instance/qualitygate.go:127-134 | The index holds exactly the observed IDs |
| QualityGateClient.FindMatchingObservationId | internal/clients/instance/qualitygate.go:138-148 | The loop returns the first match |
| QualityGateClient.WereConditionsLateInitialized | internal/clients/instance/qualitygate.go:182-195 | True exactly when the lengths, an ID or an operator differ |
| QualityGateController.LateInitialize | internal/clients/instance/qualitygate.go:153-178 | Updating the spec in place gives the late-initialised spec of the model |
| QualityGateController.External.Observe | internal/controller/qualitygate/qualitygate.go:165-213 | The gate is reported present exactly when it has an external name, the server answers and the gate exists; then status, spec and verdict, and late initialisation exactly when the spec changed |
| QualityGateController.External.Create | internal/controller/qualitygate/qualitygate.go:216-249 | Every call and its outcome, the external name even if setting the default fails, and the default flag |
| QualityGateController.External.Update | internal/controller/qualitygate/qualitygate.go:252-284 | For any spec and status: sets the default first, then runs the plan of the map; every call is accounted for, an error is the last call's, and what is left without one |
| QualityGateController.External.SyncConditions | internal/controller/qualitygate/qualitygate.go:319-345 | On any generated map the phases form one run of the plan that stops at the first failed call and reports it; without error only updates whose ID was handed out anew are left |
| QualityGateController.External.DeleteUnwantedConditions | internal/controller/qualitygate/qualitygate.go:348-366 | Works off the deletions in any order; the map stays in step with the plan |
| QualityGateController.External.CreateMissingConditions | internal/controller/qualitygate/qualitygate.go:369-411 | On any generated map, works off the creations under new IDs and leaves the map re-keyed to match |
| QualityGateRekeying.RekeyStep | internal/controller/qualitygate/qualitygate.go:377-407 | One creation re-keys one entry, whatever key the search finds, and even if the new ID is the key of an entry still waiting |
| QualityGateRekeying.RekeyedPlan | internal/controller/qualitygate/qualitygate.go:369-430 | Re-keying keeps the map faithful and the updates, but for entries whose ID was handed out anew |
| QualityGateRekeying.RekeyedComplete | internal/controller/qualitygate/qualitygate.go:414-430 | After all creations no entry lacks an observation but one under the empty key |
| QualityGateRekeying.RekeyedCount | internal/controller/qualitygate/qualitygate.go:369-411 | Creation preserves the number of entries exactly, plus one if the empty ID is declared |
| QualityGateController.External.UpdateOutdatedConditions | internal/controller/qualitygate/qualitygate.go:414-430 | Works off the updates; the ID read for an error message is always there |
| QualityGateReconcile.ObserveOrCreate | hack/helpers/controller/KIND_LOWER/KIND_LOWER.go.tmpl:187-196 | An absent gate is created and observed again; it is seen unless some call failed, and then either the untouched gate or a new one under the spec's name |
| QualityGateReconcile.Round | hack/helpers/controller/KIND_LOWER/KIND_LOWER.go.tmpl:187-196 | Update if needed and Observe: one round of the theory, every call accounted for, and an error or absence only if some call failed |
| QualityGateReconcile.Rounds | hack/helpers/controller/KIND_LOWER/KIND_LOWER.go.tmpl:187-196 | n reconciles of a gate that was seen are n rounds of the theory, with exactly their calls; without a failed call all are made |
| QualityGateReconcile.OnlyShows | internal/controller/qualitygate/qualitygate.go:165-284 | From a satisfied Observe on, n rounds are n Show calls and leave it satisfied |
| QualityGateReconcile.ReconcileAndObserve | hack/helpers/controller/KIND_LOWER/KIND_LOWER.go.tmpl:187-196 | n reconciles on the heap: they run to the end unless some call failed; conditions are in sync after as many rounds as specs wait under one key, and stay so; on any list the verdict is in the end exactly about name and default, and these can keep it from ever being up to date; what a nil default becomes and what becomes of the flag, exactly; every call is accounted for and about this gate, and a gate up to date gets only Show calls |
| QualityGateWitnesses.TwoNewConditionsShareAKey | internal/clients/instance/qualitygate_condition.go:162-171 | Two new specs on one metric share a placeholder key and are not in sync after one round |
| QualityGateWitnesses.TwoThresholdsTakeTwoRounds | internal/clients/instance/qualitygate_condition.go:162-171 | With different thresholds two rounds bring them in sync, whatever the server answers |
| QualityGateWitnesses.TwoEqualDeclarationsNeverSync | internal/clients/instance/qualitygate.go:163-177 | With equal thresholds they share one condition after any number of rounds, whatever the server answers, and from the second on are reported up to date |
| QualityGateWitnesses.RivalOfAnUpdate | internal/clients/instance/qualitygate.go:173-176 | Distinct keys and a new spec equal to a pending update: no number of rounds is certain to do |
| QualityGateWitnesses.EditedMetricSharesItsId | internal/clients/instance/qualitygate.go:164-176 | An edited metric and a new spec equal to the old condition share one ID, no number of rounds parts them, and they are reported up to date |
| QualityGateWitnesses.IdNotYetHandedOut | internal/controller/qualitygate/qualitygate.go:396-407 | A spec ID that the server hands out later for another condition: no number of rounds is certain to do |
| QualityGateWitnesses.EditedMetricIsMet | internal/controller/qualitygate/qualitygate.go:319-345 | Distinct metrics and keys, and yet every creation call meets the condition whose metric was edited away |
| QualityGateWitnesses.StaleIdsMeetEachOther | internal/controller/qualitygate/qualitygate.go:369-411 | Two stale IDs on one metric: the second creation, and only that, meets a condition of its metric |
| QualityProfileRules.FetchAllQualityProfileRules | internal/clients/instance/rules.go:84-124 | Asks pages 1, 2, … up to the first that fails or completes the reported total, and returns the concatenation of the non-nil pages |
| QualityProfileRules.SearchesInOrder | internal/clients/instance/rules.go:57-123 | The searches ask for pages 1, 2, … of activated rules of the profile, 500 at a time |
| QualityProfileRules.FetchedCounts | internal/clients/instance/rules.go:106-120 | The result names the last page, counts all rules collected and repeats the reported total |
| QualityProfileRules.NoListAddsNothing | internal/clients/instance/rules.go:99-104 | A page without a rule list adds nothing, even if it carries activations |
| QualityProfileRules.FirstPageDecides | internal/clients/instance/rules.go:99-104 | Of the pages that list an activation in the profile for a rule, the first decides |
| QualityProfileRules.MergeInOrder | internal/clients/instance/rules.go:101-103 | For each rule the activations collected so far come before those of the new page |
| QualityProfileRules.AppendActives | internal/clients/instance/rules.go:101-103 | In any key order, each activation list is extended by the page's |
| QualityProfileRules.FixedListIsFetchedExactly | internal/clients/instance/rules.go:84-124 | A list of n rules takes exactly max(1, ceil(n/500)) searches and comes back in order |
| QualityProfileRules.FetchTerminatesExactly | internal/clients/instance/rules.go:106-122 | The loop ends if and only if the reported total does not exceed the rules there are |
| QualityProfileRules.PagingKeepsMeaning | internal/clients/instance/rules.go:84-147 | For any cutting into pages that carry their own rules' activations, repeated rules included, the observations are those of one unpaged response |
| QualityProfileRules.PagedFetchObservesAll | internal/clients/instance/rules.go:84-147 | The paged fetch of a fixed list observes what one big response would |
| QualityProfileRules.FindActiveRuleSettings | internal/clients/instance/rules.go:158-180 | The first activation of the profile, with its parameters as a map |
| QualityProfileRules.GenerateRulesObservation | internal/clients/instance/rules.go:127-147 | One observation per rule, in order |
| QualityProfileRules.ObservedRule | internal/clients/instance/rules.go:158-212 | A rule shows its first activation in the profile, and without one its own severity and impacts, no parameters, not prioritized |
| QualityProfileRules.LastParamWins | internal/clients/instance/rules.go:165-168 | Of several parameters with one key the last decides |
| QualityProfileRules.LastImpactWins | internal/clients/instance/qualityprofile.go:300-306 | Of several impacts on one software quality the last decides |
| QualityProfileModel.RuleEntries | internal/clients/instance/qualityprofile.go:208-239 | Closed form of the rule map on every input, repeated rules and observations included |
| QualityProfileModel.LateInitKeepsVerdict | internal/clients/instance/qualityprofile.go:295-313 | A rule is up to date after late initialisation exactly if it was before |
| QualityProfileModel.LateInitFillsExactly | internal/clients/instance/qualityprofile.go:295-313 | Nil severity and prioritized become those observed, nil impacts those observed if there are any, and nothing else changes |
| QualityProfileModel.FlagsSurviveLateInit | internal/controller/qualityprofile/qualityprofile.go:203-216 | The map built before late initialisation equals the one Update rebuilds after it |
| QualityProfileModel.RepairsPartition | internal/clients/instance/qualityprofile.go:242-292 | The three Find lists partition the entries not up to date |
| QualityProfileModel.ReportedExactly | internal/clients/instance/qualityprofile.go:317-344 | With distinct rules, late initialisation is reported exactly when a severity or prioritized flag was filled in |
| QualityProfileTrace.OneCallPerRule | internal/controller/qualityprofile/qualityprofile.go:363-449 | A whole sync leaves at each rule just what that rule's one call leaves |
| QualityProfileTrace.CallsAreAbout | internal/controller/qualityprofile/qualityprofile.go:363-449 | Every call names the profile and its own rule, and deactivates exactly the rules without a spec |
| QualityProfileTrace.SyncIsOneTrace | internal/controller/qualityprofile/qualityprofile.go:330-359 | The three phases make one call for each entry that was not up to date, and errors add up |
| QualityProfileTheory.ErrorConservation | internal/controller/qualityprofile/qualityprofile.go:330-449 | Calls equal entries not up to date at the start, errors equal those left, and no error means the final map is up to date, and conversely |
| QualityProfileTheory.OrderIndependence | internal/controller/qualityprofile/qualityprofile.go:330-449 | In any orders, against a server that answers alike, calls, server state and map are the same |
| QualityProfileTheory.ListingReports | internal/clients/instance/rules.go:158-226 | Listing active rules with parameters and impacts in any order, other profiles' activations around them, and reading them back loses nothing |
| QualityProfileTheory.AnswersExactly | internal/clients/instance/qualityprofile.go:163-189 | What a server may store for an activation, exactly: prioritized only if declared so, declared impacts, severity unless there are impacts, and parameters, anything in the other fields; the request names profile and rule |
| QualityProfileTheory.ActivationRoundTripExactly | internal/clients/instance/qualityprofile.go:165-189 | Every server answer satisfies the spec if and only if every declared field is sent |
| QualityProfileTheory.RepairableExactly | internal/clients/instance/qualityprofile.go:295-313 | A late-initialised rule sends all it declares exactly when neither spec nor observation has impacts and nothing is declared empty |
| QualityProfileTheory.KeepingServerRepairsExactly | internal/clients/instance/qualityprofile.go:165-189 | Against a server that keeps what is not sent, exactly which drift of an existing rule is repaired |
| QualityProfileConvergence.NextVerdictExactly | internal/controller/qualityprofile/qualityprofile.go:170-224 | The next Observe is satisfied exactly when no call failed and every answer agreed with its spec |
| QualityProfileConvergence.ConvergesExactly | internal/controller/qualityprofile/qualityprofile.go:170-299 | One error-free sync, of late-initialised specs or not, converges for every server if and only if each rule to be written sends all it declares |
| QualityProfileRounds.StaleNext | internal/controller/qualityprofile/qualityprofile.go:170-359 | What is out of date after a round, whichever calls fail, failed in it or declares something that is not sent |
| QualityProfileRounds.NoneGetsStuck | internal/controller/qualityprofile/qualityprofile.go:170-359 | No round, failing or not, makes a rule stuck that was not |
| QualityProfileRounds.StaleAfter | internal/controller/qualityprofile/qualityprofile.go:170-359 | After any rounds with failures anywhere, what is out of date was stuck at the start or failed in the last round |
| QualityProfileRounds.RepairedExactly | internal/controller/qualityprofile/qualityprofile.go:170-359 | Rule by rule: n error-free rounds are certain to repair it if and only if it is not stuck |
| QualityProfileRounds.UpToDateAfterExactly | internal/controller/qualityprofile/qualityprofile.go:170-359 | n error-free rounds are certain to leave every rule up to date if and only if no rule is stuck |
| QualityProfileController.External.DeactivateUnwantedRules | internal/controller/qualityprofile/qualityprofile.go:363-386 | One call per undeclared rule whatever fails; succeeded ones leave the map, and each failed one is reported by its rule |
| QualityProfileController.External.ActivateMissingRules | internal/controller/qualityprofile/qualityprofile.go:390-417 | One call per missing rule whatever fails; succeeded ones are marked up to date, and each failed one is reported by its rule |
| QualityProfileController.External.UpdateOutdatedRules | internal/controller/qualityprofile/qualityprofile.go:422-449 | One call per differing rule whatever fails; succeeded ones are marked up to date, and each failed one is reported by its rule |
| QualityProfileController.External.SyncRules | internal/controller/qualityprofile/qualityprofile.go:330-359 | Runs all phases; the error count is the entries left, nil exactly when the final map is up to date |
| QualityProfileController.External.LateInitializeRules | internal/clients/instance/qualityprofile.go:295-313 | Writing through the map's pointers in any order gives the late-initialised rules of the model |
| QualityProfileController.External.Observe | internal/controller/qualityprofile/qualityprofile.go:170-224 | When the profile is reported present, when absent and when the search failed, exactly; status from the fetched pages, verdict from the map built before late initialisation, and what is reported |
| QualityProfileController.External.Create | internal/controller/qualityprofile/qualityprofile.go:227-256 | Every call and its outcome, and the profile's fields; the external name is the created key even if setting the default then fails |
| QualityProfileController.External.Update | internal/controller/qualityprofile/qualityprofile.go:259-299 | Default, then rename, then the rule sync, each reached only if the one before succeeded; fields, rules and calls for each way it can end |
| QualityProfileController.FieldCallsAreAbout | internal/controller/qualityprofile/qualityprofile.go:270-288 | The default is set exactly if declared true, under the declared name and language; a rename is of this profile, exactly if the observed name differs |
| QualityProfileController.WereRulesLateInitialized | internal/clients/instance/qualityprofile.go:317-344 | Compares severity and prioritized with the original rule of the same key |
| QualityProfileReconcile.FieldsAfterUpdateExactly | internal/controller/qualityprofile/qualityprofile.go:270-288 | When name, language and default agree after one Update, exactly |
| QualityProfileReconcile.FieldsAfterUpdatesExactly | internal/controller/qualityprofile/qualityprofile.go:270-288 | A second Update repairs the default of a renamed profile, and no further one changes anything |
| QualityProfileReconcile.FilledInDefaultExactly | internal/controller/qualityprofile/qualityprofile.go:199-288 | A filled-in default keeps the flag after any number of Updates, but for the first one of a default profile that is renamed |
| QualityProfileServer.ListingStops | internal/clients/instance/rules.go:84-124 | A search over what is active ends, whichever pages fail |
| QualityProfileServer.ListingIsObserved | internal/clients/instance/rules.go:84-226 | If none does, the observations built from the pages report exactly what is active |
| QualityProfileReconcile.Round | hack/helpers/controller/KIND_LOWER/KIND_LOWER.go.tmpl:187-196 | Update if needed and Observe: one round of the theory, every call accounted for; an error or absence only if some call failed, else the fields an Update leaves and, out of date, at most the rules that declare something not sent |
| QualityProfileReconcile.OnlyShows | internal/controller/qualityprofile/qualityprofile.go:170-299 | From a satisfied Observe on, n rounds are n Show calls about the profile and leave it satisfied |
| QualityProfileReconcile.Rounds | hack/helpers/controller/KIND_LOWER/KIND_LOWER.go.tmpl:187-196 | n reconciles of a profile that was seen are n rounds of the theory, with exactly their calls; without a failed call all are made |
| QualityProfileReconcile.ReconcileAndObserve | hack/helpers/controller/KIND_LOWER/KIND_LOWER.go.tmpl:187-196 | n reconciles on the heap against a server that lists its rules in pages: they run to the end unless some call failed; at most the rules stuck at the start are out of date, and if there are none the verdict is exactly about the fields; what a nil default becomes and what becomes of the flag, exactly; every call is accounted for and about this profile, and a profile up to date gets only Show calls |
| Settings.DetectionIsRepairExactly | internal/controller/settings/settings.go:274-291 | Detection and repair agree on a key unless a setting without content is missing on the server |
| Settings.UpToDateIsOverlaid | internal/clients/instance/settings.go:135-139 | A setting is up to date exactly when putting the declared fields over the observed ones changes nothing |
| Settings.SetStoresDeclaredAlone | internal/clients/instance/settings.go:45-64 | A Set leaves the declared fields as declared and every other field empty, under the key and component it names |
| Settings.UpToDateIffNothingToSet | internal/clients/instance/settings.go:142-151 | Observe is satisfied exactly when Update has nothing to set, and Set and Reset keys are disjoint |
| Settings.MergeLastWins | internal/clients/instance/settings.go:120-132 | Merging field values keeps every key, with the value of the last map that has it |
| Settings.SplitMergesBack | internal/clients/instance/settings.go:120-132 | Any split of a map, in any order, merges back to it |
| SettingsController.External.Observe | internal/controller/settings/settings.go:158-185 | Asks for exactly the declared keys and fails exactly when that call does; a resource being deleted is absent |
| SettingsController.External.UpdateOutOfDateSettings | internal/controller/settings/settings.go:274-291 | One Set for each key that differs, in any order; each failure is reported by its key |
| SettingsController.External.ResetObsoleteSettings | internal/controller/settings/settings.go:294-317 | One Reset for exactly the observed keys nobody declares, each once, and none without such keys |
| SettingsController.External.Update | internal/controller/settings/settings.go:223-244 | Sets, then resets, with the errors of both; without error no observed undeclared key is stored |
| SettingsController.GenerateSettingsObservation | internal/clients/instance/settings.go:107-132 | Observations by key, the last setting with a key winning |
| SettingsController.ObservationsLastWins | internal/clients/instance/settings.go:107-132 | Of several settings with one key the last is kept, its field values merged |
| SettingsController.ObservedIsStored | internal/clients/instance/settings.go:107-132 | A storing server's listing reads back as exactly what is stored for the requested keys |
| SettingsController.NothingToReset | internal/controller/settings/settings.go:294-317 | Against a server that lists only what was asked for, nothing is ever reset |
| SettingsController.SetAgainIsWhatFailed | internal/controller/settings/settings.go:274-291 | What is still to be set after an update is exactly what failed to be set |
| SettingsController.UpdateElsewhere | internal/controller/settings/settings.go:274-291 | No other key and no other component changes |
| SettingsController.SecondVerdictExactly | internal/controller/settings/settings.go:158-316 | The second Observe is satisfied exactly when no Set failed and no setting without content is absent from the server |
| SettingsController.ReconcileAndObserve | internal/controller/settings/settings.go:158-316 | One reconcile and a second observation on the heap: one Set per differing key between two listings and nothing else; key by key, a setting in which nothing declared differs or whose Set failed is as it was, and any other consists of the declared fields alone; the verdict is that on what the server then holds, and without a failed call it runs to the end without error |

## Left out

- Delete of all three resources, and Create of settings: single calls, or a loop that Observe never leads to.
- Setup, Connect, provider configuration, usage tracking, authentication and HTTP: wiring without provable content.
- Display-only observation fields, timestamps and the text of error messages; errors carry what failed and how many.
- Other quality gates and profiles on the server; making another one the default is modelled by its effect on this one.
- The helper that late-initialises a single condition: no controller calls it.
- Facets of a rule search, and 64-bit wrap-around of page counters and totals.
- A Go nil map or slice and an empty one are one value here, except for the rule list of a search page, where the source tells them apart.
- Interference: other clients changing the server between Observe and Update.
- QualityProfileController.External.Observe: requires a search that ends, because the loop otherwise has no result; FetchTerminatesExactly says when it does.
