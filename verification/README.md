# Verified model of the MikroTik Presence backend

This project models, in Dafny, three cooperating parts of the add-on's Go backend under
`addon/internal`, and proves what they promise over whole runs.

**Automation against a router.** `Devices` is a RouterOS device: address-list entries with
ids, firewall tables, and its answer to each command. `Transport` is the client's retrying
`Run` and `connect` against an arbitrary plan of faults (a command lost before or after the
device acted, a failing dial, an interrupted sleep, a concurrent close). `AddressLists` and
`FirewallRules` are the client operations on top, `Adapters` the two action types and two
state sources, `Templates` the capability templates with their normalisation and validation,
`Engine` the automation engine with its state table. `SyncLaws`, `UserChanges`,
`ActionLaws`, `RowLaws` and `ValidationLaws` hold the results about whole runs, `Instances`
concrete templates for which their premises hold, and `Spellings` says which texts name the
same thing and how commands are spelled. A *fact* is one boolean about the device (an address is a member of a
list, a rule is enabled); actions set facts and sources read them.

**Concurrency.** `AddressListRace`, `ConnectionSlot` and `ClientPool` are state machines with
a program counter per thread, and `ClientRuns` shows that a thread of the second is a run of
`Transport`. A schedule is any sequence of choices of a thread (and of luck where the outcome
is not the client's), so a result for every schedule is a result for every interleaving of any
number of threads. `SyncRace` takes a sync apart into its reads and writes, with requests in
between.

**Presence pipeline.** `Durations` is the RouterOS duration parser with 64-bit wrap-around,
`Subnets` the subnet matcher, `Aggregates` the merge of one router snapshot into observations
and `AggregateLaws` its columns told from the rows, `Presence` what a poll leaves in the
tables, `PollColumns` those rows column by column, `PresenceLaws` the results over runs of
polls and registrations, `Listing` the device list of the API. `Words` is the wire encoding of command
parameters, `Text` the string functions taken from Go's library.

Loops and updates in place are methods and classes, each proved equal to a specification
function; the lemmas speak about those functions. Maps that Go walks in no fixed order are
walked here by picking any remaining key, so nothing proved depends on that order. Clock
readings, the subnet matcher inside the aggregator, vendor lookup, timestamp and address
parsing, the next faults and the results of dials are parameters.

## Where the code differs from what one would expect

- `Match` compares mask sizes, and a network written in IPv4-mapped IPv6 notation counts 96
  bits more. Such a network can win over a longer IPv4 prefix
  (`Subnets.MappedNotationBeatsLongerPrefix`); the exact condition is
  `Subnets.LongestMatchExactly`.
- Validation looks the mapped sync states up as written, the engine trims them before it
  stores them, and a state id may carry blanks. A valid template can therefore make sync store
  a state it does not declare (`Instances.ValidTemplateStoresUndeclared`); the exact condition
  on the template is in `ValidationLaws.StatesStayDeclaredExactly`.
- The sync and the request handlers share no lock. A sync that has read a row and the router
  writes back over what a request did since: a disable can be lost, and a set undone
  (`SyncRace.InterruptedDisableIsLost`, `SyncRace.StaleReadUndoesASet`; exactly when:
  `SyncRace.FlagsStandExactly`, `SyncRace.SetAmidSyncStandsExactly`).
- The compact duration form refuses a total of zero and the colon form does not; both wrap at
  64 bits (`Durations.ColonFormAgreesWithCompact`, `Durations.AcceptsExactlyTheGrammar`).
- A parameter key that contains "=", or is padded, does not survive the wire
  (`Words.RoundTripExactly`).
- A dial in flight can install a connection after `Close`
  (`ConnectionSlot.ConnectionAfterClose`, exactly when:
  `ConnectionSlot.ClosedClientReconnectsExactly`).
- The last-seen time comes from the first DHCP row with a readable age, while the age that
  decides ONLINE comes from the last one (`Aggregates.OnlineExactly`).
- The update time of a registered device that was never polled is the clock reading of the
  request; everything else in the device list is determined (`Listing.ListingIsUnique`).

## Model

| member | source | states |
|---|---|---|
| `SyncLaws.SyncNeverUndoesAUserChange` | addon/internal/services/automation/engine/engine.go:67-227 | after a set that ran its action without warning, any number of syncs under any faults leave the row and the router's fact as the user set them, if no other capability or target writes that fact |
| `SyncLaws.SetEstablishes` | addon/internal/services/automation/engine/engine.go:115-133 | a set that ran its single action without warning makes the stored state and the router agree |
| `UserChanges.HealthySetStands` | addon/internal/services/automation/engine/engine.go:67-227 | on a healthy router, setting a paired state always succeeds and stands through any number of syncs |
| `UserChanges.CleanSetSucceeds` | addon/internal/services/automation/engine/engine.go:115-133 | without faults the set of a paired state gives no warning, if the router knows the rule in question |
| `UserChanges.CleanExecute` | addon/internal/adapters/mikrotik/actions/firewall_rule.go:132-171 | without faults an action whose fact the router knows succeeds |
| `ActionLaws.EveryActionTakesEffect` | addon/internal/services/automation/engine/engine.go:115-133 | a set with any list of actions, under any faults: the state is stored, and the fact of each action has its value afterwards unless a warning names that action or a later action writes the fact, so the later success decides; an action that is not sent is named with the reason, warnings come in the order of the actions |
| `ActionLaws.AllFactsHold` | addon/internal/services/automation/engine/engine.go:360-430 | when no two actions of the state meet in one fact, all their facts hold afterwards but for those of actions a warning names; under any faults |
| `ActionLaws.CleanSetRunsEveryAction` | addon/internal/services/automation/engine/engine.go:360-430 | without faults, if the router knows the rules in question, there is no warning and every fact has the value of the last action on it |
| `ActionLaws.AllFactsHoldWithoutFaults` | addon/internal/services/automation/engine/engine.go:360-430 | the same for independent actions: no warning and all facts hold |
| `ActionLaws.ExecuteKeepsRules` | addon/internal/adapters/mikrotik/actions/firewall_rule.go:132-171 | no action adds, removes or renames a firewall rule, whatever the faults |
| `ActionLaws.TriggeredSyncActs` | addon/internal/services/automation/engine/engine.go:203-223 | a sync with triggers moves a row to the mapped state and runs all actions of that state |
| `ActionLaws.TriggeredSyncOfOneRow` | addon/internal/services/automation/engine/engine.go:137-227 | so does a whole sync of one capability with one target, without errors |
| `ActionLaws.TriggeredSyncNeedsTheState` | addon/internal/services/automation/engine/engine.go:203-223 | a sync with triggers towards an undeclared state reports that for the row and changes neither rows nor router |
| `Instances.VpnStaysOn` | addon/internal/services/automation/engine/engine.go:67-227 | a device-scoped template the store accepts: on every router and for every device list, switched on for a device with an address, it stays on |
| `Instances.KidsRulesStay` | addon/internal/adapters/mikrotik/actions/firewall_rule.go:132-171 | a global template over firewall rules by comment that the store accepts: switched on, all those rules stay enabled |
| `Instances.VpnCanDrift` | addon/internal/services/automation/engine/engine.go:167-223 | the losses of an interrupted sync are possible for an accepted template and every device list |
| `RowLaws.SetChecks` | addon/internal/services/automation/engine/engine.go:67-109 | the error of a set for whatever is sent, in the order of the checks: device id, state, capability, scope, unknown state, unknown device; none otherwise, and an error changes nothing |
| `RowLaws.ActsExactly` | addon/internal/services/automation/engine/engine.go:111-117 | a set does nothing if and only if the row is enabled and in the state already, a missing row counting as enabled in the default state |
| `RowLaws.SetAgainDoesNothing` | addon/internal/services/automation/engine/engine.go:111-117 | the same set a second time does nothing, even if the first had warnings |
| `RowLaws.SwitchKeepsState` | addon/internal/services/automation/service.go:276-316 | switching the flag changes that row's flag alone: the stored state stays, a row without state gets the default, other rows and the router are untouched; an error changes nothing |
| `RowLaws.OffAndOnAgain` | addon/internal/services/automation/service.go:276-316 | off, any number of syncs under any faults, on again: the row is back in its state and the syncs never touched it |
| `RowLaws.PatchSetsBoth` | addon/internal/services/automation/service.go:244-273 | a patch with state and flag runs the actions as a set does and leaves the row with that state and that flag |
| `RowLaws.PatchStopsAtTheState` | addon/internal/services/automation/service.go:244-266 | a patch whose state fails leaves the flag alone; an empty patch is refused |
| `RowLaws.SyncMovesDeviceRows` | addon/internal/services/automation/engine/engine.go:187-223 | after a fault-free sync without triggers, for every device and every capability that follows a fact about it: the row is in the state named for what the router says, unless switched off or no state is named |
| `RowLaws.SyncMovesGlobalRow` | addon/internal/services/automation/engine/engine.go:187-223 | the same for a global capability |
| `RowLaws.SyncLeavesInternalRows` | addon/internal/services/automation/engine/engine.go:150-185 | a sync leaves the rows of capabilities alone that have no sync, a sync that is off, or internal_truth, whatever it meets |
| `RowLaws.MissingSourceIsReported` | addon/internal/services/automation/engine/engine.go:149-159 | a sync reports every capability whose source type is not registered, whatever else it meets |
| `RowLaws.MisfitSourceIsReported` | addon/internal/services/automation/engine/engine.go:167-185 | and every enabled row whose source has refused parameters |
| `RowLaws.UnknownFactIsReported` | addon/internal/services/automation/engine/engine.go:187-196 | and, without faults and triggers, every enabled row whose fact the router does not know |
| `RowLaws.AnySpellingReachesTheDevice` | addon/internal/services/automation/engine/engine.go:434-457 | however a stored address is typed (case, dashes, blanks around it), a request reaches that device and its row |
| `RowLaws.StoredDevicesAreCanonical` | addon/internal/services/device/service.go:313-321 | device lists with distinct addresses in the stored form meet the premise of the sync results |
| `Instances.ValidTemplateStoresUndeclared` | addon/internal/services/automation/validate.go:77-86 | a concrete template that the store accepts, and one sync of it that stores a state it does not declare |
| `SyncLaws.SyncFrame` | addon/internal/services/automation/engine/engine.go:137-227 | for all templates and faults a sync alters no disabled row, no row of an internal_truth capability and no effective enabled flag |
| `SyncLaws.SyncConverges` | addon/internal/services/automation/engine/engine.go:187-223 | with TriggerActionsOnSync off, and whatever faults the sync meets, every enabled external_truth row with a non-blank mapping ends in the state mapped from the router's truth, unless its read failed, which is reported for that row and leaves it as it was; the router is left alone |
| `SyncLaws.CleanSyncConverges` | addon/internal/services/automation/engine/engine.go:187-223 | without faults there is no exception |
| `SyncLaws.SettledSyncWritesNothing` | addon/internal/services/automation/engine/engine.go:203-211 | where every row agrees with the router a sync writes nothing, whatever faults it meets and whatever triggers are on |
| `SyncLaws.SecondSyncWritesOnlyUnreadRows` | addon/internal/services/automation/engine/engine.go:187-211 | two syncs of an unchanged router, each with its own faults: the second writes at most rows whose source the first could not read |
| `SyncRace.ThreeStepsAreOne` | addon/internal/services/automation/engine/engine.go:167-223 | reading the row, reading the router and writing, taken one after the other, are one step of the sync |
| `SyncRace.SyncIsASchedule` | addon/internal/services/automation/engine/engine.go:137-227 | every whole sync is one of the schedules of such steps |
| `SyncRace.FlagsStandExactly` | addon/internal/services/automation/engine/engine.go:167-217 | with requests in between, the rest of a sync changes no enabled flag if and only if the row in its hand is still enabled or it will store nothing |
| `SyncRace.ChangeStandsExactly` | addon/internal/services/automation/engine/engine.go:187-223 | a change that lands during a sync stands through every further sync step if and only if that sync has not already read the opposite value for this row and decided on it |
| `SyncRace.SetAmidSyncStandsExactly` | addon/internal/services/automation/engine/engine.go:115-223 | the same for a warning-free set at any point of a sync |
| `SyncRace.StaleReadUndoesASet` | addon/internal/services/automation/engine/engine.go:187-223 | on a row that disagrees with the router, a user's two successful sets between read and write are undone |
| `SyncRace.InterruptedDisableIsLost` | addon/internal/services/automation/engine/engine.go:167-217 | there a disable between read and write is lost |
| `SyncLaws.CleanRead` | addon/internal/adapters/mikrotik/statesources/address_list_membership.go:96-125 | without faults a source reads exactly the truth about its fact |
| `Engine.AutomationEngine.SetCapabilityState` | addon/internal/services/automation/engine/engine.go:67-134 | the whole new world and the result, for every input and every fault plan: checks in order, early return, actions, then the row |
| `Engine.AutomationEngine.ExecuteStateActions` | addon/internal/services/automation/engine/engine.go:360-430 | runs the actions of a state in order, each failure a warning and never a stop |
| `Engine.AutomationEngine.SyncOneTarget` | addon/internal/services/automation/engine/engine.go:167-223 | one target of one template: read, map, skip or apply, collecting errors that name capability and target |
| `Engine.AutomationEngine.SyncOneTemplate` | addon/internal/services/automation/engine/engine.go:150-225 | one template: all its targets, or the error that its source is not registered |
| `Engine.AutomationEngine.SyncOnce` | addon/internal/services/automation/engine/engine.go:137-227 | one sync over all templates and targets, the errors joined; nothing without a configuration |
| `Engine.AutomationEngine.SetCapabilityEnabled` | addon/internal/services/automation/service.go:276-316 | the flag is stored beside the current or default state; no action runs |
| `Engine.AutomationEngine.PatchCapability` | addon/internal/services/automation/service.go:244-273 | state first, then the flag; a failing state leaves the flag |
| `ValidationLaws.StatesStayDeclaredExactly` | addon/internal/services/automation/validate.go:14-103 | every run of set, enable, patch and sync from a declared state stays declared if and only if what sync would store is a declared state once trimmed |
| `ValidationLaws.TrimmedStateIdsSuffice` | addon/internal/services/automation/validate.go:14-103 | with state ids without surrounding blanks every such run stays declared |
| `ValidationLaws.UndeclaredMappingEscapes` | addon/internal/services/automation/engine/engine.go:198-223 | otherwise a concrete router and one sync store an undeclared state |
| `ValidationLaws.ControlOptionsAreKnown` | addon/internal/services/automation/validate.go:146-187 | setting any option of a validated template's control is never an unknown state |
| `ValidationLaws.ValidatedActionsNeverMisfit` | addon/internal/services/automation/engine/engine.go:360-430 | setting a state of a validated template never warns of an unregistered action type or refused parameters |
| `ValidationLaws.ValidatedSourcesNeverMisfit` | addon/internal/services/automation/engine/engine.go:150-185 | a sync never reports a missing or misconfigured source for a validated template |
| `ValidationLaws.NormalizedTwice` | addon/internal/services/automation/validate.go:105-144 | normalising a template a second time changes nothing |
| `ValidationLaws.NormalizedActsAlike` | addon/internal/services/automation/validate.go:105-144 | normalising keeps scope, default state, truth mode, sync part and the actions of every state |
| `ValidationLaws.NormalizedSyncsAlike` | addon/internal/services/automation/validate.go:105-144 | a sync of the normalised template is a sync of the template, errors included |
| `ValidationLaws.ValidExactly` | addon/internal/services/automation/validate.go:14-103 | a template is accepted if and only if id, label, scope, states, default, control, actions, sync and exposure all fit, whatever the order of the checks and of the states |
| `ValidationLaws.IdPatternExactly` | addon/internal/services/automation/validate.go:15-21 | an id is accepted exactly if it is a part of lower-case letters and digits followed by at least one dotted part, underscores allowed there |
| `Templates.NormalizeTemplate` | addon/internal/services/automation/validate.go:105-135 | the loop over the states and the trimming of every field give the normal form |
| `Templates.ValidateControl` | addon/internal/services/automation/validate.go:146-187 | the values a control can ask for, or refusal, for switch and select |
| `Adapters.ExecuteSetsItsFact` | addon/internal/adapters/mikrotik/actions/address_list_membership.go:116-171 | executing an action, faults and retries included, disturbs no independent fact of the router; on success its own fact has the value it was to set; refused parameters do nothing |
| `Adapters.ReadTellsTheTruth` | addon/internal/adapters/mikrotik/statesources/address_list_membership.go:96-152 | reading changes nothing on the router, and a value read is the truth of the source's fact |
| `Adapters.ExecuteAction` | addon/internal/adapters/mikrotik/actions/firewall_rule.go:132-171 | dispatch of both action types to the client calls, with the parameter checks in front |
| `Adapters.ReadSource` | addon/internal/adapters/mikrotik/statesources/firewall_rule_enabled.go:115-150 | dispatch of both source types to the client reads |
| `Adapters.ResolvedNotBlank` | addon/internal/adapters/mikrotik/actions/address_list_membership.go:146-171 | a resolved target address is never blank |
| `Spellings.MembershipTold` | addon/internal/adapters/mikrotik/actions/address_list_membership.go:116-171 | which list entry an action is about: by the address last seen, by the hardware address or written out; none if the device has no address or the scope has no device |
| `Spellings.ToggleTold` | addon/internal/adapters/mikrotik/actions/firewall_rule.go:132-171 | which rule an action is about: by id or by comment, in which table, and to which flag |
| `Spellings.MembershipValidExactly` | addon/internal/adapters/mikrotik/actions/address_list_membership.go:71-114 | the parameters of the list action and the list source are accepted if and only if list, mode and a target that the scope has are there, a written address naming no device in the global scope |
| `Spellings.ToggleValidExactly` | addon/internal/adapters/mikrotik/actions/firewall_rule.go:79-130 | the same for the rule action and the rule source: table, id or comment, mode |
| `Spellings.SourceReadsWhatActionSets` | addon/internal/adapters/mikrotik/statesources/address_list_membership.go:96-152 | a source reads the very fact that an action with the same parameters sets |
| `Spellings.OneAddress` | addon/internal/routeros/mapper.go:112-124 | an address with or without /32, in either case and with blanks around it is one target |
| `Spellings.SameTargetExactly` | addon/internal/routeros/mapper.go:112-124 | two plain addresses are one target exactly if they differ in case alone, also with /32 on one |
| `Spellings.OneDevice` | addon/internal/services/device/service.go:313-321 | both normalisations turn every spelling of a stored address into it |
| `AddressLists.AddHasOneEffect` | addon/internal/routeros/addresslist.go:12-44 | for every fault plan, replies lost after the effect included: at most one entry is added, others stand, and success means max(1, before) matching entries |
| `AddressLists.RemoveHasOneEffect` | addon/internal/routeros/addresslist.go:56-89 | for every fault plan: other entries stand, and success means that exactly they remain |
| `AddressLists.AddThenRemove` | addon/internal/routeros/addresslist.go:12-89 | removing after a successful add leaves exactly the non-matching entries of before |
| `AddressLists.ExistsIsTruth` | addon/internal/routeros/addresslist.go:101-113 | a successful lookup is the truth about membership |
| `AddressLists.ExistsIsSound` | addon/internal/routeros/addresslist.go:101-147 | a lookup changes nothing and what it finds is there, even with improper ids |
| `AddressLists.BlankIsRefused` | addon/internal/routeros/addresslist.go:12-113 | a blank list or address is refused before anything is sent, and is never a member |
| `AddressLists.AddEffect` | addon/internal/routeros/client.go:154-214 | retries of one add amount to at most one entry; an answer means exactly that |
| `AddressLists.RemoveEffect` | addon/internal/routeros/client.go:154-214 | retries of one remove amount to at most one removal; an answer means exactly that |
| `AddressLists.FindAddressIds` | addon/internal/routeros/addresslist.go:124-147 | the loop over the reply rows collects the trimmed ids of matching rows |
| `AddressLists.AddressExists` | addon/internal/routeros/addresslist.go:101-113 | validation, then a lookup |
| `AddressLists.AddAddressToList` | addon/internal/routeros/addresslist.go:12-44 | check, then add, with an already-exists reply as success |
| `AddressLists.RemoveAddressFromList` | addon/internal/routeros/addresslist.go:56-89 | look up, then remove each id, with a not-found reply as success, stopping at the first failure |
| `AddressListRace.InterleavingsAreSerial` | addon/internal/routeros/addresslist.go:22-43 | in every interleaving of any number of threads the entries are those of the completed operations one after the other in lock order |
| `AddressListRace.EveryCallCanFinish` | addon/internal/routeros/addresslist.go:22-88 | no deadlock: from every interleaving each call can still come to its end, after the call that holds the mutex, and takes its effect |
| `AddressListRace.NeverASecondEntry` | addon/internal/routeros/addresslist.go:22-88 | in every interleaving a key has at most max(1, before) entries, even on a router that accepts duplicates |
| `AddressListRace.WithoutLockEntriesDouble` | addon/internal/routeros/addresslist.go:22-43 | without the mutex a schedule exists that adds one address twice |
| `FirewallRules.SetByCommentEffect` | addon/internal/routeros/firewall.go:211-240 | for every fault plan only flags of rules with the comment change, towards the new flag; success means there are some and all have it |
| `FirewallRules.SetByIdEffect` | addon/internal/routeros/firewall.go:144-184 | for every fault plan only that rule's flag changes; success means that it exists and has the flag |
| `FirewallRules.GetByCommentIsTruth` | addon/internal/routeros/firewall.go:243-266 | a successful read is whether all rules with the comment are enabled, and changes nothing |
| `FirewallRules.GetByIdIsTruth` | addon/internal/routeros/firewall.go:187-208 | a successful read is whether the rule is enabled, and changes nothing |
| `FirewallRules.SetRuleEffect` | addon/internal/routeros/firewall.go:144-153 | retries of one set leave the flag set or untouched; an answer means set |
| `FirewallRules.ListFirewallRulesByTable` | addon/internal/routeros/firewall.go:113-142 | the loop over the rows of a table, rows without id dropped |
| `FirewallRules.RulesByComment` | addon/internal/routeros/firewall.go:155-169 | the loop selecting the rules of a comment, and whether all are enabled |
| `FirewallRules.GetFirewallRuleEnabled` | addon/internal/routeros/firewall.go:187-208 | the loop looking for an id |
| `FirewallRules.GetFirewallRulesEnabledByComment` | addon/internal/routeros/firewall.go:243-266 | the loop over the rules of a comment |
| `FirewallRules.SetFirewallRuleDisabledInTable` | addon/internal/routeros/firewall.go:144-153 | one set command |
| `FirewallRules.SetFirewallRuleDisabled` | addon/internal/routeros/firewall.go:172-184 | the set by id, a missing rule being an error |
| `FirewallRules.SetFirewallRulesDisabledByComment` | addon/internal/routeros/firewall.go:211-240 | the loop over the rules of a comment, stopping at the first failure |
| `Transport.RunIsAtLeastOnce` | addon/internal/routeros/client.go:142-215 | for every fault plan one Run has the effect of up to four executions; a reply means at least one and is that of the last |
| `Transport.RetriedUntilAnswered` | addon/internal/routeros/client.go:154-214 | up to three dropped commands are sent again after 120, 240 and 480 ms and the answer counts; each drop that the device had acted on makes it act once more |
| `Transport.BrokenEndsTheRun` | addon/internal/routeros/client.go:142-215 | an error not worth a retry ends the run after that one command; a closed client sends nothing |
| `Transport.RunBudget` | addon/internal/routeros/client.go:154-214 | for every fault plan at most 4 executions, 20 dials and 9840 ms of backoff; the waits are a beginning of 120, 240, 480 |
| `Transport.BudgetIsReached` | addon/internal/routeros/client.go:356-389 | a router that never answers a dial makes one Run spend all 20 dials and 9840 ms |
| `Transport.DialBudget` | addon/internal/routeros/client.go:356-389 | the waits between dials double from 150 ms, capped at two seconds, at most four of them |
| `Transport.Client.Dial` | addon/internal/routeros/client.go:356-389 | the dial loop against any plan: attempts, waits, outcome |
| `Transport.Client.ConnectOnce` | addon/internal/routeros/client.go:341-389 | closed, connected, connected under the lock, else dial |
| `Transport.Client.RunCommand` | addon/internal/routeros/client.go:142-215 | the retry loop against any plan: device, counters, waits, outcome |
| `ConnectionSlot.ConnectionsAreConserved` | addon/internal/routeros/client.go:341-411 | in every interleaving of any number of Run and Close calls each dialled connection is in exactly one of being installed, current, detached for closing, closed; none is closed twice |
| `ConnectionSlot.InstallNeverOverwrites` | addon/internal/routeros/client.go:341-374 | the slot is empty whenever a thread is about to install into it |
| `ConnectionSlot.CommandsAndDialsAreExclusive` | addon/internal/routeros/client.go:177-180 | no two commands and no two dials overlap |
| `ConnectionSlot.ClosedClientReconnectsExactly` | addon/internal/routeros/client.go:107-120 | after Close, with an empty slot, a later connection can appear if and only if some thread had already passed the closed check of connect |
| `ConnectionSlot.ConnectionAfterClose` | addon/internal/routeros/client.go:107-120 | an explicit schedule in which Close runs to its end and a connection is installed afterwards |
| `ConnectionSlot.QuietForever` | addon/internal/routeros/client.go:107-120 | without such a thread the slot stays empty for ever |
| `ClientRuns.EveryRunIsATransportRun` | addon/internal/routeros/client.go:142-215 | in every interleaving a finished Run of a thread is the sequential retry loop against the answers it got: the same commands and dials, all answers used |
| `ClientRuns.BudgetAmidOthers` | addon/internal/routeros/client.go:154-214 | so at most 4 commands and 20 dials amid any number of other calls |
| `ClientRuns.StepResumes` | addon/internal/routeros/client.go:341-389 | each step of a thread is a step of that loop |
| `ClientPool.ClientsAreConserved` | addon/internal/routeros/client.go:280-330 | in every interleaving of getClient and Close calls each client ever created is pooled under its configuration, in the hands of one thread, or closed, and only one of these |
| `ClientPool.OneClientPerConfiguration` | addon/internal/routeros/client.go:302-330 | until the manager is closed all calls for one configuration return the same, open, pooled client |
| `Words.RoundTripExactly` | addon/internal/routeros/mapper.go:37-66 | the words decode to the same map if and only if every key is non-empty, trimmed and free of "="; values are arbitrary |
| `Words.SortStrings` | addon/internal/routeros/mapper.go:68-79 | in place: the sorted permutation |
| `Words.SortedIsUnique` | addon/internal/routeros/mapper.go:68-79 | two sorted sequences of the same strings are equal |
| `Words.KeyOrderIsUnique` | addon/internal/routeros/mapper.go:37-46 | the key order does not depend on the order in which the map was walked |
| `Words.MapParams` | addon/internal/routeros/mapper.go:37-66 | the words of the sorted keys, blank keys dropped |
| `Spellings.WordsTold` | addon/internal/routeros/mapper.go:37-66 | one word for each key in key order: =key=value, or ?key=value for a query |
| `Spellings.CommandsTold` | addon/internal/routeros/addresslist.go:12-147 | the words of every command the backend sends |
| `Devices.AnswerKeepsIds` | addon/internal/routeros/addresslist.go:28-42 | no command breaks the uniqueness of the router's ids |
| `Devices.FlagWords` | addon/internal/routeros/mapper.go:81-95 | the flag words read back as the flag |
| `Aggregates.Aggregate` | addon/internal/aggregator/aggregator.go:40-158 | the four passes over two maps and the final loop in map order give, per device, each field's own rule over the device's rows: last or first offered value, any complete entry, the last-seen rule |
| `Aggregates.DhcpPass` | addon/internal/aggregator/aggregator.go:46-72 | after the pass every device has what its leases say |
| `Aggregates.WifiPass` | addon/internal/aggregator/aggregator.go:74-101 | after the pass every device has what its leases and registrations say |
| `Aggregates.ArpPass` | addon/internal/aggregator/aggregator.go:103-129 | likewise with its ARP entries |
| `Aggregates.BridgePass` | addon/internal/aggregator/aggregator.go:131-148 | likewise with its bridge hosts |
| `Aggregates.LeaseStep` | addon/internal/aggregator/aggregator.go:46-72 | one more lease moves the merged observation and its priority to the rule over one more row |
| `Aggregates.RegistrationStep` | addon/internal/aggregator/aggregator.go:74-101 | the same for a registration: it takes over the last-seen time from a lease, never from a registration |
| `Aggregates.NeighbourStep` | addon/internal/aggregator/aggregator.go:103-129 | the same for an ARP entry: it fills address, interface and last-seen time only where they are missing |
| `Aggregates.HostStep` | addon/internal/aggregator/aggregator.go:131-148 | the same for a bridge host |
| `Aggregates.FinishAll` | addon/internal/aggregator/aggregator.go:150-155 | vendor, name and status for every entry, in whatever order the map yields them |
| `Aggregates.OnlyOwnRowsMatter` | addon/internal/aggregator/aggregator.go:40-158 | an observation depends on the device's own rows in their order and on nothing else |
| `Aggregates.Locality` | addon/internal/aggregator/aggregator.go:40-158 | aggregating the snapshot cut down to one device gives that device's observation and no other |
| `Aggregates.SourcesAreTheTables` | addon/internal/aggregator/aggregator.go:247-251 | the sources are in the order dhcp, wifi, arp, bridge, without repetition, and are exactly the tables with a row of the device |
| `Aggregates.LastSeenRule` | addon/internal/aggregator/aggregator.go:235-245 | last seen is the time of the snapshot minus the age of the first Wi-Fi row, else of the first lease with a readable age; it is now if the Wi-Fi row has no age, or if there is no such row and an ARP row is complete or a bridge row exists; else never |
| `Aggregates.OnlineWasSeen` | addon/internal/aggregator/aggregator.go:160-218 | an observed device is ONLINE or IDLE_RECENT, never UNKNOWN or OFFLINE, and if ONLINE has a last-seen time |
| `Aggregates.OnlineExactly` | addon/internal/aggregator/aggregator.go:160-193 | ONLINE told from the router's rows, in both directions |
| `AggregateLaws.NeverSeenLater` | addon/internal/aggregator/aggregator.go:62-88 | with ages in the past no device was last seen after the snapshot was taken |
| `AggregateLaws.SightingTold` | addon/internal/aggregator/aggregator.go:62-88 | a sighting given as a point in time is that point, one given as weeks, days, hours, minutes and seconds lies that far back |
| `AggregateLaws.StatusAndReasonTold` | addon/internal/aggregator/aggregator.go:160-208 | status and reason text of every observation, told from the device's rows |
| `AggregateLaws.CompleteExactly` | addon/internal/aggregator/aggregator.go:103-129 | an ARP row is complete by its mark or by a letter c of either case among its flags |
| `AggregateLaws.LatestColumns` | addon/internal/aggregator/aggregator.go:46-148 | the columns that the latest row of a table decides |
| `AggregateLaws.LeaseColumnsTold` | addon/internal/aggregator/aggregator.go:46-72 | address, subnet, host name and lease age: those of the latest lease that gives one |
| `AggregateLaws.RegistrationColumnsTold` | addon/internal/aggregator/aggregator.go:74-101 | the interface is that of the first registration that names one; activity, uptime and signal are those of the latest that has one |
| `AggregateLaws.FallbackColumns` | addon/internal/aggregator/aggregator.go:103-148 | ARP and bridge rows fill address, subnet and interface only where the earlier tables gave none |
| `AggregateLaws.NumbersAreRead` | addon/internal/aggregator/aggregator.go:266-288 | signals are read with and without dBm and VLANs as plain numbers, over all of 64 bits |
| `AggregateLaws.GeneratedNameTold` | addon/internal/aggregator/aggregator.go:290-299 | a generated name is the vendor, or Device, and the last four digits of the MAC |
| `Aggregates.FirstIsFirst` | addon/internal/aggregator/aggregator.go:235-245 | the first value a column offers is the one no earlier row offers |
| `Aggregates.LastIsLast` | addon/internal/aggregator/aggregator.go:51-69 | the last value a column offers is the one no later row offers |
| `Durations.ParseDuration` | addon/internal/aggregator/timeparse.go:46-105 | the byte loop computes what the grammar says, 64-bit wrap-around included |
| `Durations.ParseColonForm` | addon/internal/aggregator/timeparse.go:51-64 | the colon form, signed parts included |
| `Durations.AcceptsExactlyTheGrammar` | addon/internal/aggregator/timeparse.go:66-104 | without a colon exactly (digits unit)* digits? with in-range numerals and a total that does not wrap to zero is accepted, with that total |
| `Durations.PrintThenParse` | addon/internal/aggregator/timeparse.go:66-104 | printing any segment list and parsing gives the sum back when it is positive and fits |
| `Durations.ParseIsAdditive` | addon/internal/aggregator/timeparse.go:66-104 | after a unit letter durations add |
| `Durations.ColonFormAgreesWithCompact` | addon/internal/aggregator/timeparse.go:51-64 | unsigned h:m:s is the compact form, except that only the colon form accepts zero |
| `Durations.CompactDecimals` | addon/internal/aggregator/timeparse.go:66-104 | numbers of weeks, days, hours, minutes and seconds printed in decimal with their letters parse to ((((7w+d)*24+h)*60+m)*60+s) seconds, if positive and in range |
| `Durations.DecimalsParse` | addon/internal/aggregator/timeparse.go:66-104 | any list of decimal numbers with unit letters parses to the sum of their seconds |
| `Durations.OneUnitDecimals` | addon/internal/aggregator/timeparse.go:66-104 | a number with one letter is that many weeks, days, hours, minutes or seconds |
| `Durations.ColonDecimals` | addon/internal/aggregator/timeparse.go:51-64 | h:m:s of decimal numbers parses to (h*60+m)*60+s seconds, signed parts included |
| `Durations.AtoiReadsDecimals` | addon/internal/aggregator/timeparse.go:51-64 | the number reader reads every 64-bit number printed in decimal, by division and remainder |
| `Subnets.Matcher.constructor` | addon/internal/subnet/matcher.go:24-39 | the kept networks: trimmed, non-blank, parseable, in order |
| `Subnets.Matcher.Match` | addon/internal/subnet/matcher.go:41-55 | the loop finds the first network of greatest mask size around the address |
| `Subnets.ChosenIsWidestMask` | addon/internal/subnet/matcher.go:46-54 | that network contains the address and none around it has a greater mask size |
| `Subnets.NestedByLength` | addon/internal/subnet/matcher.go:46-54 | networks around one address are nested by prefix length (section 3.1 of RFC 4632) |
| `Subnets.LongestMatchExactly` | addon/internal/subnet/matcher.go:24-54 | for the texts given to WithAddresses, it is the longest match of section 5.1 of RFC 4632 if and only if no network in IPv4-mapped notation hides a longer plain one |
| `Subnets.NetworksAreListed` | addon/internal/subnet/matcher.go:24-39 | the kept networks are exactly those of the trimmed, non-blank, parseable texts, each with its mask size |
| `Subnets.PlainListsMatchLongest` | addon/internal/subnet/matcher.go:24-54 | without IPv4-mapped texts it always is |
| `Subnets.MappedNotationBeatsLongerPrefix` | addon/internal/subnet/matcher.go:35-53 | a /104 in IPv4-mapped notation is chosen over an IPv4 /24 inside it |
| `Subnets.ChosenNetworkIgnoresOrder` | addon/internal/subnet/matcher.go:24-54 | the chosen network does not depend on the order or repetition of the address texts |
| `Subnets.SubnetOf` | addon/internal/subnet/matcher.go:24-55 | the returned text: "" exactly if the address is unreadable or no listed text has a network around it, else a listed text without its blanks whose network is the first of greatest mask size around the address |
| `Presence.DeviceService.PersistSnapshot` | addon/internal/services/device/service.go:84-201 | the three tables after a poll, in whatever order the MACs come |
| `Presence.Gather` | addon/internal/services/device/service.go:98-182 | the rows to write and the MACs to delete, one decision per MAC |
| `Presence.WritesArePolled` | addon/internal/storage/repository.go:261-313 | upserting and deleting them gives exactly the tables of the poll |
| `Presence.DeviceService.PollOnce` | addon/internal/services/device/service.go:70-82 | aggregate, then persist; nothing changes without a snapshot |
| `Presence.DeviceService.PatchDevice` | addon/internal/storage/repository.go:383-413 | the given columns of an existing registration; unknown devices are reported unless nothing is given |
| `PresenceLaws.ConnectedSinceTheRunBegan` | addon/internal/services/device/service.go:136-154 | over every run from an empty database a row is online exactly while an unbroken run of online polls lasts, and then carries the time of the poll that began it |
| `PresenceLaws.OnlineAfter` | addon/internal/services/device/service.go:136-137 | a row is online exactly when the latest poll saw the device ONLINE |
| `PresenceLaws.OnlineMeansStatusOnline` | addon/internal/services/device/service.go:136-137 | after every run a row is online exactly when its status is ONLINE |
| `PresenceLaws.OnlineRowsWereSeen` | addon/internal/services/device/service.go:139-141 | when polls aggregate router snapshots, every online row has a last-seen time |
| `PresenceLaws.TablesAgree` | addon/internal/services/device/service.go:98-200 | after every run from an empty database both tables have the same MACs |
| `PresenceLaws.PollDecidesMembership` | addon/internal/services/device/service.go:111-199 | after every run from an empty database a poll leaves in both tables the MACs that are (old and registered) or observed, and no other |
| `PresenceLaws.SamePollTwice` | addon/internal/services/device/service.go:98-200 | repeating a poll with the same observations and time changes nothing |
| `PresenceLaws.FrozenWhileAway` | addon/internal/services/device/service.go:174-181 | an unseen registered device keeps its row, but for the status that the time of the latest poll decides |
| `PresenceLaws.OfflineExactlyAfterThreshold` | addon/internal/services/device/presence.go:35-58 | OFFLINE exactly when the last sighting is longer ago than the hard threshold; last-seen, address, subnet, connected-since and details frozen |
| `PresenceLaws.OfflineIsFinal` | addon/internal/services/device/presence.go:35-47 | under a non-decreasing clock the status of an unseen device moves only from IDLE_RECENT to OFFLINE |
| `PresenceLaws.RegistrationsRemember` | addon/internal/storage/repository.go:368-424 | over every run from an empty database a device is registered if and only if it ever was; its creation time is that of the first registration, its last change that of the last effective one, and name, icon and comment are the last given for it: blank or missing values keep the stored one, other devices never matter |
| `PresenceLaws.RegisteredRowsRemember` | addon/internal/services/device/service.go:133-149 | over every run the row of a registered device holds the last address, subnet and sighting that any poll gave, and the details of the latest poll that saw it |
| `PresenceLaws.NamesAreNotLost` | addon/internal/services/device/service.go:156-173 | polls without host name and known vendor never take away a registered device's proper name or known vendor |
| `PresenceLaws.FirstSeenAtCreation` | addon/internal/storage/repository.go:261-291 | a first-seen time is that of the poll that created the row, whatever is upserted later |
| `PollColumns.SeenRow` | addon/internal/services/device/service.go:133-149 | online, status, reason, sources and update time of a device that was seen are the observed ones; sighting, address and subnet are the observed ones or else those stored before |
| `PollColumns.DetailColumns` | addon/internal/services/device/presence.go:10-33 | all its other columns are the observed ones, texts without surrounding blanks, durations as the nearest number of seconds |
| `PollColumns.AwayRow` | addon/internal/services/device/presence.go:35-58 | status and reason of a registered device that was not seen, and that the rest of its row stays |
| `PollColumns.SeenName` | addon/internal/services/device/service.go:156-173 | a given host name becomes the name, else a generated name replaces a blank or placeholder one; a known vendor becomes the vendor, else the stored one stays |
| `PollColumns.LeaseReachesTheRow` | addon/internal/services/device/service.go:70-201 | from end to end: the address and the host name of a device's last lease that gives one are in its row after the poll, and the host name is its name |
| `PollColumns.RegistrationColumns` | addon/internal/storage/repository.go:368-424 | a registration stores what it is given without surrounding blanks and keeps the columns that are blank or missing |
| `Listing.ListDevices` | addon/internal/services/device/service.go:204-245 | the list in comparator order of exactly the devices of both tables that pass the filter, each as its current view |
| `Listing.ListingIsUnique` | addon/internal/services/device/service.go:204-245 | there is only one such list, whatever the map order and the clock, up to the update time of a device without a state row |
| `Listing.BeforeIsATotalOrder` | addon/internal/services/device/service.go:220-243 | the comparator is a strict total order on views of different devices |
| `Listing.OrderIsUnique` | addon/internal/services/device/service.go:220-243 | a set of devices has one order |
| `Listing.MergeDeviceViews` | addon/internal/storage/repository.go:472-603 | one view per device of the two tables, in whatever map order |
| `Listing.FilterViews` | addon/internal/services/device/service.go:274-295 | the loop keeps the passing views in order |
| `Listing.FilteredRows` | addon/internal/services/device/service.go:274-311 | exactly the passing views, none twice |
| `Listing.ListedInThisOrder` | addon/internal/services/device/service.go:220-243 | on the columns of the list: new devices first; then the later created, or later first seen; then by lower-cased name; then by MAC |
| `Listing.ListedWhen` | addon/internal/services/device/service.go:274-311 | which devices pass: the status and the online flag asked for, and a search text found, case aside, in name, MAC, vendor or address |
| `Listing.EveryDeviceIsListed` | addon/internal/storage/repository.go:472-603 | without a filter every device of the two tables is listed, and every registered one if those are asked for |
| `Listing.ListedColumns` | addon/internal/storage/repository.go:472-603 | what a listed device shows of the three tables |

## Left out

- Devices: the device itself is not in the repository; its answers (a duplicate add is refused as "already have", a missing id as "no such item") are what the client's error predicates expect, and ids are unique and not blank.
- Transport: error values are reduced to the classes that the retry loop tells apart; contexts and timeouts appear only as events of the plan; listeners (`Listen`, `listenLoop`) are not modelled.
- ConnectionSlot.ConnectionsAreConserved: a second concurrent `Close` returns at once here instead of waiting for the first to finish.
- AddressListRace.NeverASecondEntry: its transport is reliable; lost commands and replies are covered for one caller at a time in `AddressLists`.
- SyncRace.SetAmidSyncStandsExactly: a request is one step here; two requests interleaved with each other are not modelled.
- ClientPool.OneClientPerConfiguration: normalising a configuration and forming its key are one opaque key.
- Text: Unicode case folding, and blanks outside Latin-1; letters other than ASCII keep their case here.
- Engine.AutomationEngine.SetCapabilityState: failures of the state tables and of the device list; the percent-decoding in device ids.
- Engine.AutomationEngine.SyncOnce: errors are kept as classes with capability and target, not as texts; update times of capability rows.
- Templates.NormalizeTemplate: description, category and the labels that nothing reads are not columns here; absent action lists and parameter maps are empty ones from the start.
- ValidationLaws.StatesStayDeclaredExactly: template edits while states are stored, for which the code promises nothing.
- Capability read models, assignments and their sorting: they only copy stored values with defaults.
- `UpdateCapability` keeping the stored sync part: a default with no further property.
- `EnableRule` and `DisableRule`: the same set command over all tables, not used by automation.
- Aggregates.LastSeenRule: the one age whose negation wraps in 64 bits, the least number, is left out of its arithmetic.
- Aggregates.Aggregate: raw source payloads and the observation time, which are copied through.
- Durations.PrintThenParse: time stamps are read by the library; `parseRouterOSAge` takes that reading as a parameter.
- Presence.DeviceService.PersistSnapshot: a storage failure between the separate writes; rows as SQL text, with times and sources as JSON.
- PresenceLaws.RegistrationsRemember: MACs are taken as already normalised.
- Listing.ListDevices: the library's stable sort is replaced by an insertion sort; finding one device by MAC without regard to case.
- Integers other than durations are unbounded; times do not overflow.
- HTTP, configuration files, logging, SQL text, TLS, the user interface and the Home Assistant integration.
