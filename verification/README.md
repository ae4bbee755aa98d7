# Verified models of the routing core

A Dafny 4.11 project that models the stateful and concurrent parts of this proxy
and proves properties of the models. `dafny verify dfyconfig.toml` checks all of it.

| file | what it models |
|---|---|
| `DnsWalk.dfy` | the DNS rule walk as a state machine: suspend, resume, parked race rules, completions as steps of the environment |
| `DnsWalkMeaning.dfy` | a synchronous interpreter of the same rules, and what a correct answer is |
| `DnsWalkBounds.dfy`, `DnsWalkCorrect.dfy`, `DnsWalkTheorems.dfy` | theorems about every run of the machine |
| `DnsWalkTiming.dfy`, `DnsWalkExposed.dfy` | for exactly which rule lists the timing of exchanges does not matter |
| `DnsWalkLoop.dfy` | the walk as imperative code, proved to be a stretch of machine steps |
| `DnsWalkRace.dfy`, `DnsWalkHeard.dfy` | which race rule answers, and that none is passed by unheard, in every run |
| `RuleValidator.dfy` | the validator of DNS rule lists, and what the walk may rely on for an accepted list |
| `Graphs.dfy`, `Decimals.dfy`, `Common.dfy` | paths and cycles, numerals, `Option` and `Result` |
| `ProviderOptions.dfy`, `ProviderFilter.dfy`, `ProviderTags.dfy`, `ProviderSort.dfy`, `ProviderPrepare.dfy`, `ProviderAffected.dfy` | importing a provider's outbounds: references, filtering, naming, ordering, change propagation |
| `ProviderCapture.dfy`, `ProviderDetour.dfy` | exactly when renaming captures an outside reference, and when a default detour makes a cycle |
| `ProviderImport.dfy` | the whole path of an imported list, up to the transaction that puts it in place |
| `OutboundManager.dfy`, `OutboundSwap.dfy`, `OutboundRegistry.dfy` | the outbound registry: list, tag map, reverse index, default; batch swap |
| `StartOrder.dfy` | starting outbounds after their dependencies, and the diagnosis of a failure |
| `ScopeTree.dfy`, `ScopeForest.dfy` | the tree of cleanup scopes |
| `ReplaceOutbounds.dfy`, `ReplaceRefusal.dfy` | replacing running outbounds in one transaction, over the registry and the scope tree, and that the inputs alone decide its outcome |
| `ReferenceRules.dfy`, `ReferenceScan.dfy`, `ReferenceWorklist.dfy` | the static reference analysis against the rule scan it abstracts |
| `DnsMessage.dfy`, `ClientSubnet.dfy`, `DnsCache.dfy` | time-to-live arithmetic, client subnet options, the in-memory DNS cache |
| `SingleFlight.dfy` | one exchange per cache key, as a state machine over the lock map and its channels |
| `InterfaceUpdate.dfy` | the hand-off of network interface notifications |
| `SavedBinary.dfy` | the codec of saved downloads |

## What the proofs found

Seven expectations one could have of the code do not hold as such. Each has a lemma
with a concrete input and the condition under which it does hold.

- A tagged response that lands between a settle and the readiness test that follows it
  is no longer waited for and not yet visible, so the walk can answer differently from
  the synchronous meaning (`UntimelyCompletionChangesAnswer`). A rule is exposed to this
  when it decides on a tagged response and no ordinary rule between it and the rule that
  asks waits for it. A rule list answers every request correctly under every timing
  exactly when no exposed rule matters, that is, ends the request, changes its options,
  or asks for a response that, over any number of rules, one such rule reads
  (`AnswersExactly`). It also issues exactly the exchanges of the interpreter, in every
  state of every run, exactly when no rule is exposed at all (`SafeExactly`). Reading a
  tag is not enough to be exposed: a rule that waits and decides nothing shields those
  after it (`WaitingShields`).
- A rule without conditions that is inverted matches every connection, but the static
  analysis takes it never to match (`BlindRuleIsMissed`). The analysis is sound exactly
  when the first such rule that can be reached sends to no outbound, or to one that
  another rule references (`SoundExactlyWhen`).
- A cache key does not always name the subnet of the message it stands for. It names what
  every subnet option of the message sent means exactly when the request is unambiguous
  (`KeySubnetIsActual`); with at most one option that fits, exactly unless the client's own
  IPv4-mapped IPv6 option is forwarded (`SingleOptionIsActual`, `MappedOptionsCollide`).
  With two options a configured subnet replaces only the first (`SecondOptionStays`),
  and forwarded requests that differ in the second share a key (`SecondOptionShares`).
- Renaming a provider's outbounds keeps every internal reference, but can turn a reference
  to an outside outbound into an internal one (`CaptureHappens`). A plain outside name is
  captured exactly when some outbound's cleaned name is that name, by the first of them
  (`CapturedExactly`); when no cleaned name is a numbered form of another, every name
  given, numbered or not, is known from the list (`CapturedByCount`); in general a name is
  given exactly when it is a cleaned name or a number some outbound falls back to
  (`NamesGiven`).
- `setClientSubnet` looks for an OPT record to reuse, but forgets one that is not the last
  additional record, and then adds a second (`SecondOptHappens`): a message with at most
  one OPT record keeps at most one exactly unless it has one and one is added
  (`SecondOptRecord`).
- Starting outbounds of which two share a tag can end in looking for an outbound that is
  not there (`RepeatedTagHappens`): exactly when every tag can be started and every start
  succeeds (`StartOutbounds`).
- A default detour can make an imported list circular (`DetourCycleHappens`): exactly when
  it names one of the outbounds, from which one that takes the default is reached
  (`DetourCycle`).

## Assumptions

Sections under a mutex, channel operations and map operations are single steps. Rule
matching is an arbitrary function that reads only the responses a rule binds. Exchanges,
building and starting components, clocks, case folding and cosmetic renaming are arbitrary
functions or parameters. Numbers are unbounded except in `SavedBinary.dfy`, where the
64-bit ranges matter. Two handles of running outbounds are equal when they are the same
object.

A set of tracked DNS rules is closed when it holds every rule that ends the request or
changes its options, and every rule whose response a rule it holds reads.

## Model

| member | source | states |
|---|---|---|
| `DnsWalkBounds.RunShape` | dns/router.go:575-921 | in every reachable state the indexes, parked rules, launched exchanges and cancellations are consistent with the program counter |
| `DnsWalkBounds.NoLostWakeUp` | dns/router.go:503-526 | whenever the request is blocked, a wake-up token is there or some launched exchange has not finished its callback |
| `DnsWalkBounds.NeverStuck` | dns/router.go:775-805 | an unfinished request can always move, without giving up: itself, or an exchange it launched |
| `DnsWalkBounds.FinishedCancelsAll` | dns/router.go:551-555 | at the end of every run, each launched exchange has been cancelled |
| `DnsWalkBounds.LaunchesOnce` | dns/router.go:654-733 | however often rules are walked again, no two exchanges of a run come from the same rule |
| `DnsWalkBounds.BoundedWork` | dns/router.go:765-921 | no run takes more steps than a fixed quadratic function of the number of rules |
| `DnsWalkMeaning.OptionsAreFold` | dns/router.go:366-390 | the options in force at a rule are the fold of the matched options rules before it |
| `DnsWalkMeaning.TagStable` | dns/router.go:528-549 | a tag no later rule defines keeps its meaning for the rest of the list |
| `DnsWalkMeaning.CorrectWithoutRaces` | dns/router.go:575-763 | without race rules the synchronous meaning is the only correct answer |
| `DnsWalkCorrect.RunSound` | dns/router.go:575-921 | in every state of a timely run, one in which no response lands between a settle and the test of a tracked rule that decides on it, the options, the bindings tracked rules made, named responses, parked rules and pending queries are those of the interpreter, for any closed set of tracked rules, all of them included |
| `DnsWalkCorrect.RunCorrect` | dns/router.go:575-895 | for any closed set of tracked rules, in a timely run an answer of the ordinary walk is the synchronous one and every race rule reached before it had its say and missed; an answer of a race rule is that rule's own verdict |
| `DnsWalkCorrect.RunIsSynchronous` | dns/router.go:575-805 | without race rules every timely run, in whatever order exchanges complete, gives the answer and origin of the synchronous interpreter |
| `DnsWalkTheorems.CommittedOptions` | dns/router.go:366-414 | in a timely run the options of a committed query are the fold of the matched options rules before its rule, plus its own |
| `DnsWalkTheorems.CorrectOptions` | dns/router.go:864-874 | any correct query, from a rule, the default or a race rule, has folded options |
| `DnsWalkTheorems.ResponseWrittenOnce` | dns/router.go:528-549 | under any timing, a named response never changes once written, and comes from the only rule that defines its tag, which precedes every use |
| `DnsWalkTheorems.OptionsOnce` | dns/router.go:654-656 | under any timing the options in force are the fold of options rules below the current one, each once and in order, however often the walk is suspended and resumed |
| `DnsWalkTiming.RunGuarded` | dns/router.go:626-641 | under any timing, once the walk has passed an ordinary rule that reads a tag, the exchange of that tag is done |
| `DnsWalkTiming.MatteringIsClosed` | dns/router.go:575-763 | the rules that matter for the answer, directly or by what they feed, form a closed set |
| `DnsWalkTiming.SafeIsTimely` | dns/router.go:581-641 | if no tracked rule is exposed, no response can land in the window of a tracked rule that decides on it |
| `DnsWalkTiming.SafeIsCorrect` | dns/router.go:575-895 | if no rule of a closed set is exposed, every request is answered correctly whenever the exchanges complete |
| `DnsWalkTiming.UnreadIsSafe` | dns/router.go:583-641 | in a list in which no rule reads a tag none is exposed, whatever tags it defines |
| `DnsWalkTiming.WaitingShields` | dns/router.go:626-641 | a concrete list that answers with a tagged response and exposes no rule, because a rule before already waits |
| `DnsWalkExposed.AnswersExactly` | dns/router.go:575-895 | of the accepted lists exactly those in which no rule that matters is exposed answer every request correctly in every run |
| `DnsWalkExposed.SafeExactly` | dns/router.go:575-895 | of the accepted lists exactly those in which no rule is exposed follow the interpreter, exchanges included, in every state of every run of every request |
| `DnsWalkExposed.ExposedAnswersWrong` | dns/router.go:584-641 | an exposed rule that ends the request or changes its options, or feeds one that does over any number of rules: some request with these rules has a finished run with a wrong answer |
| `DnsWalkExposed.ExposedEvaluateSkipped` | dns/router.go:657-679 | an exposed evaluate rule: some run passes it over and its exchange is not issued |
| `DnsWalkTheorems.UntimelyCompletionChangesAnswer` | dns/router.go:584-592 | a concrete accepted list and run whose untimely completion changes the answer |
| `DnsWalkLoop.SweepIsFirst` | dns/router.go:807-895 | a sweep picks the first ready parked rule that commits, and none if there is none |
| `DnsWalkLoop.SweepCommitsLowest` | dns/router.go:807-895 | if nothing completes during a sweep, it commits the lowest parked rule that is ready and has an answer |
| `DnsWalkLoop.WalkSweepReaches` | dns/router.go:614-623 | the sweep the walk begins ends where the machine's single steps lead |
| `DnsWalkLoop.ResumeSweepReaches` | dns/router.go:775-785 | so does the sweep the resume loop begins |
| `DnsWalkRace.SweepHistory` | dns/router.go:807-824 | in every run, of the rules parked when a sweep began each is still ahead or was looked at and was not ready or had no answer, completions in between allowed |
| `DnsWalkRace.RaceCommitsLowest` | dns/router.go:807-895 | whenever a sweep commits a rule, every rule of lower index parked when it began was looked at before and was not ready or had no answer |
| `DnsWalkRace.RaceAnswerIsLowest` | dns/router.go:775-895 | in every run and under any timing, a query or answer of a race rule is the verdict of such a committing step |
| `DnsWalkHeard.RunKnown` | dns/router.go:585-625 | in every run and under any timing, each race rule the walk has passed is parked or was heard, and a parked rule waits for all it reads that is not resolved |
| `DnsWalkHeard.EveryRaceHeard` | dns/router.go:585-895 | in every run and under any timing, before the ordinary walk settles on a query or an answer each race rule below was looked at with all it reads resolved and had nothing to say |
| `DnsWalkLoop.RuleWalk.SettleFutures` | dns/router.go:528-549 | the loop settles exactly the done futures, once each, in order |
| `DnsWalkLoop.RuleWalk.CancelFutures` | dns/router.go:551-555 | every future is cancelled and nothing else changes |
| `DnsWalkLoop.RuleWalk.SweepArmed` | dns/router.go:807-895 | the loop commits the first rule of the sweep and drops the rules that missed before it |
| `DnsWalkLoop.RuleWalk.PendingFutures` | dns/router.go:586-602 | the unresolved futures a race rule binds, in binding order |
| `DnsWalkLoop.RuleWalk.AwaitedFuture` | dns/router.go:626-641 | the first bound future an ordinary rule has to wait for |
| `DnsWalkLoop.RuleWalk.LaunchQuery` | dns/router.go:503-526 | a new running future at the end, nothing else |
| `DnsWalkLoop.RuleWalk.OnEvaluate` | dns/router.go:657-679 | the evaluate branch is one machine step |
| `DnsWalkLoop.RuleWalk.OnRoute` | dns/router.go:711-733 | the route branch, speculative or not, is one machine step |
| `DnsWalkLoop.RuleWalk.OnRespond` | dns/router.go:680-710 | the respond branch is one machine step |
| `DnsWalkLoop.RuleWalk.OnMatch` | dns/router.go:647-757 | the whole action switch is one machine step |
| `DnsWalkLoop.RuleWalk.OnRace` | dns/router.go:585-625 | parking a race rule and the sweep that may follow are machine steps |
| `DnsWalkLoop.RuleWalk.SweepNow` | dns/router.go:614-623 | the sweep of a rule with nothing to wait for, and what follows a commit, are machine steps |
| `DnsWalkLoop.RuleWalk.MatchRule` | dns/router.go:642-757 | matching a rule and acting on it is one machine step |
| `DnsWalkLoop.RuleWalk.TestRule` | dns/router.go:585-641 | parking, waiting or acting on a rule that reads a response are machine steps |
| `DnsWalkLoop.RuleWalk.OneRule` | dns/router.go:581-757 | one turn of the loop leads, by machine steps, to the next rule, a suspension or an answer |
| `DnsWalkLoop.RuleWalk.WalkRules` | dns/router.go:575-763 | the whole loop is a stretch of machine steps that ends suspended or finished |
| `RuleValidator.ValidateRules` | dns/router.go:1531-1592 | accepts exactly the lists in which every read tag or anonymous response is defined before and no tag twice; its warnings are exactly those that hold |
| `RuleValidator.CheckReads` | dns/router.go:1543-1567 | the checks on what a rule reads, given what the rules before it define |
| `RuleValidator.CheckDefines` | dns/router.go:1568-1584 | the checks on what an evaluate rule defines |
| `RuleValidator.UnreferencedTags` | dns/router.go:1586-1590 | exactly the defined tags that no rule reads |
| `RuleValidator.BuiltTagsAreRead` | dns/router.go:1615-1676 | the tags a built rule binds are the ones the validator saw it read, at any nesting |
| `RuleValidator.RespondReads` | route/rule/rule_dns.go:427-488 | a built respond rule answers with a tag it reads, or reads none |
| `RuleValidator.AcceptedForTheWalk` | dns/router.go:1531-1592 | an accepted list has every property the walk theorems require |
| `ProviderOptions.ReferencesAre` | adapter/provider/graph.go:176-212 | the dependencies are the new names of exactly the internal references, each once |
| `ProviderOptions.RewriteOutboundReferences` | adapter/provider/graph.go:176-212 | internal references are renamed, all else is kept, dependencies collected without repeats |
| `ProviderOptions.IdentityRewritesNothing` | adapter/provider/graph.go:37-42 | under a map of known names to themselves rewriting only collects |
| `ProviderFilter.EdgeMeans` | adapter/provider/graph.go:27-42 | the search graph has an edge exactly for a reference to the first outbound of that name |
| `ProviderFilter.IndexTags` | adapter/provider/graph.go:23-36 | the index holds the first outbound of each name, and every known name |
| `ProviderFilter.SoundByTargets` | adapter/provider/graph.go:58-69 | an outbound that names no invalid tag and whose targets are sound is sound, cycles included |
| `ProviderFilter.Search.IsValid` | adapter/provider/graph.go:48-70 | the memoised search answers whether neither an invalid tag nor a cycle can be reached, from any state of the memo |
| `ProviderFilter.FilterInvalidOutboundsWithSkipped` | adapter/provider/graph.go:22-81 | keeps, in order, exactly the outbounds from which neither an invalid tag nor a cycle is reachable, and skips exactly the others |
| `ProviderTags.FreeTag` | adapter/provider/adapter.go:441-447 | the first of base, "base #2", "base #3" and so on that is free; the search ends |
| `ProviderTags.TakenCount` | adapter/provider/adapter.go:443-446 | n numbered names that are all taken mean at least n taken names |
| `ProviderTags.NormalizeOutboundTags` | adapter/provider/adapter.go:428-459 | every outbound gets the first free name made from its own, in order, and references follow the first outbound of their name |
| `ProviderTags.NormalizedNames` | adapter/provider/adapter.go:428-459 | names afterwards are distinct and not empty |
| `ProviderTags.ReferencesFollow` | adapter/provider/adapter.go:450-458 | each internal reference still names the same outbound |
| `ProviderTags.ReferencesAfter` | adapter/provider/adapter.go:450-458 | the references afterwards are exactly the old ones and those to an outbound given an outside name |
| `ProviderTags.CaptureHappens` | adapter/provider/adapter.go:450-458 | a concrete outbound that comes to dial through itself |
| `ProviderCapture.NamesGiven` | adapter/provider/adapter.go:428-447 | a name is given exactly when it is some outbound's cleaned name, or a numbered form of one that its outbound falls back to |
| `ProviderCapture.PlainGiven` | adapter/provider/adapter.go:428-447 | a name that is not numbered goes to exactly the first outbound that cleans to it |
| `ProviderCapture.CapturedExactly` | adapter/provider/adapter.go:450-458 | for an outbound with plain outside references, the references afterwards are exactly the old ones and those to the first outbound that cleans to the outside name |
| `ProviderCapture.NumberedUnique` | adapter/provider/adapter.go:443-446 | a numbered name tells its base and its number |
| `ProviderCapture.NamesAreNth` | adapter/provider/adapter.go:428-447 | when no cleaned name is a numbered form of another, the first outbound of a cleaned name keeps it, the second gets #2, and so on |
| `ProviderCapture.CapturedByCount` | adapter/provider/adapter.go:450-458 | then every reference afterwards, numbered or not, is known from the list before |
| `ProviderSort.SortOutbounds` | adapter/provider/graph.go:214-248 | fails exactly when the dependencies have a cycle, naming a tag on one; else each tag once, dependencies first |
| `ProviderSort.Sorter.Visit` | adapter/provider/graph.go:222-241 | places a tag after all it depends on, keeping the order so far, or names a tag on a real cycle |
| `ProviderSort.OrderedIsAcyclic` | adapter/provider/graph.go:242-247 | a complete order with dependencies first rules out cycles |
| `ProviderSort.OrderedIsPermutation` | adapter/provider/graph.go:214-248 | with distinct tags the order is a permutation of the list |
| `ProviderPrepare.PrepareOutbounds` | adapter/provider/graph.go:91-118 | fails exactly on a cycle among the prepared outbounds; else a permutation of them with dependencies first |
| `ProviderPrepare.EdgeIsReference` | adapter/provider/graph.go:106-108 | a dependency between prepared outbounds was a reference between their sources, if the default detour names none of them |
| `ProviderPrepare.FilteredIsAcyclic` | adapter/provider/graph.go:91-118 | what the filter keeps of a list with distinct names can always be ordered, when the default detour is not one of them |
| `ProviderDetour.PreparedEdge` | adapter/provider/graph.go:91-118 | the dependencies of the prepared list are exactly the references of its sources, the default detour counted as one |
| `ProviderDetour.ExtendedAcyclic` | adapter/provider/graph.go:106-108 | edges from some nodes to one target make an acyclic graph cyclic exactly when the target reaches one of the nodes |
| `ProviderDetour.DetourCycle` | adapter/provider/graph.go:91-118 | what the filter keeps fails for a circular dependency exactly when the default detour names one of it and reaches one that takes the default |
| `ProviderDetour.DetourCycleHappens` | adapter/provider/graph.go:106-108 | a concrete detour that takes itself as its detour |
| `ProviderImport.ApplyPatches` | adapter/provider/adapter.go:215-227 | fails exactly when the patch fails on some outbound; else each is patched, in order |
| `ProviderImport.ApplyNameFilters` | adapter/provider/adapter.go:240-249 | keeps in order exactly what the name filters show, and collects the hidden names |
| `ProviderImport.HiddenMembers` | adapter/provider/adapter.go:243-247 | the collected names are exactly those of outbounds the filters hide |
| `ProviderImport.ShownClosed` | adapter/provider/adapter.go:239-250 | what the filters and the removal of broken chains leave refers, of the cleaned list, only to what is left |
| `ProviderImport.FilterOutbounds` | adapter/provider/adapter.go:212-255 | fails exactly when a patch fails; else the sound outbounds are patched, cleaned and filtered, and what comes out of any list has distinct names, none of them hidden, and refers to nothing that was taken out |
| `ProviderImport.PrepareList` | adapter/provider/adapter.go:180-187 | succeeds exactly without a cycle, and the result has distinct tags and dependencies first, as the transaction demands; each is the last outbound of its tag |
| `ProviderImport.ImportOutbounds` | adapter/provider/adapter.go:167-255 | of any list, what is patched, cleaned, filtered and filtered again is prepared and ready for the transaction exactly unless a patch fails or the default detour loops; then the outbound named is on a cycle |
| `ProviderImport.UpdateOutbounds` | adapter/provider/adapter.go:167-193 | refused exactly when it leaves nothing to publish; circular exactly when the current or the new outbounds are; else refused exactly when the transaction is, which the inputs decide; any failure leaves registry and scope as they were, and success is that of the transaction on the prepared lists |
| `ProviderImport.ReadyIsOne` | adapter/provider/adapter.go:180-187 | a list is prepared in one way, up to the order |
| `ProviderImport.UpdateDecided` | adapter/provider/adapter.go:167-193 | the current and the imported outbounds decide which outbounds are affected and whether the update is refused, however they are ordered |
| `ProviderAffected.DirectlyChanged` | adapter/provider/graph.go:259-270 | exactly the added, removed and changed tags |
| `ProviderAffected.AffectedOutbounds` | adapter/provider/graph.go:250-289 | exactly the least set with the changed tags that is closed under "depends on" in both lists |
| `ProviderAffected.UnaffectedIsIdentical` | adapter/provider/graph.go:91-118 | an unaffected outbound is in both lists with the same source, runtime options and dependencies, even when other names appear or vanish |
| `OutboundManager.RemoveDependencies` | adapter/outbound/manager.go:377-389 | exactly the links of that outbound to its dependencies are gone, and no empty list is left |
| `OutboundManager.RemovedKeeps` | adapter/outbound/manager.go:287-320 | an allowed removal, which drops the outbound from list and map and exactly its links from the index, keeps them and the default in agreement and every resolved dependency resolved |
| `OutboundManager.CreatedKeeps` | adapter/outbound/manager.go:346-375 | so does registering an outbound, whose links replace those of the one it stands in for |
| `OutboundSwap.SwappedMatches` | adapter/outbound/manager.go:250-274 | after replacement in place and appending, list and map hold the same outbounds once each |
| `OutboundSwap.SwappedKeeps` | adapter/outbound/manager.go:193-285 | an accepted batch swap, which drops the links of the removed and adds those of the candidates, keeps list, map, index and default in agreement and every resolved dependency of those that stay |
| `OutboundRegistry.Manager.Outbound` | adapter/outbound/manager.go:165-173 | finds a tag exactly when it is registered or an endpoint; a registered outbound wins |
| `OutboundRegistry.Manager.Remove` | adapter/outbound/manager.go:287-320 | refused, changing nothing, exactly when the tag is unknown or depended on; else gone from list, map and index, the default falling back |
| `OutboundRegistry.Manager.Create` | adapter/outbound/manager.go:322-375 | a failed build or an empty tag changes nothing; else the outbound is last, in place of its tag, and the default follows |
| `OutboundRegistry.Manager.SwapBatch` | adapter/outbound/manager.go:193-285 | accepted exactly when all four checks hold; on refusal nothing has changed, else exactly the batch was exchanged |
| `OutboundRegistry.Manager.ReplaceInPlace` | adapter/outbound/manager.go:250-264 | each removed outbound is replaced where it stood or dropped, and the leftover candidates are those that replaced nothing |
| `OutboundRegistry.Manager.ChooseDefault` | adapter/outbound/manager.go:275-283 | the default after a swap: replacement of the removed one, the configured tag, or the first outbound |
| `OutboundRegistry.RunConsistent` | adapter/outbound/manager.go:193-389 | in every state of every sequence of operations list, map, reverse index and default agree |
| `OutboundRegistry.RunKeepsDependencies` | adapter/outbound/manager.go:193-389 | as long as an outbound stays registered it never loses a dependency it resolved |
| `StartOrder.StartOutbounds` | adapter/outbound/manager.go:94-157 | succeeds exactly when no tag repeats, dependencies are complete and acyclic and all starts succeed; then each is started once, after its dependencies; else the failure named is real, and a start that failed is the last one made and the only one to fail; it looks for an outbound that is not there exactly when a tag repeats, every tag can be started and all starts succeed |
| `StartOrder.BlockedStartable` | adapter/outbound/manager.go:129-137 | when everyone left waits for one not started, no order starts more |
| `StartOrder.RepeatedTagHappens` | adapter/outbound/manager.go:129-137 | two outbounds of one tag, the first without dependencies, end that way |
| `StartOrder.Sweep` | adapter/outbound/manager.go:97-128 | one pass starts only what is ready, and a pass without progress leaves everyone waiting for an unstarted one |
| `StartOrder.Lint` | adapter/outbound/manager.go:138-154 | the recursion ends with a path that leads back into itself or with a dependency that is not there |
| `StartOrder.DiagnosisIsReal` | adapter/outbound/manager.go:143-151 | what the message says contradicts a complete and acyclic graph |
| `StartOrder.FullOrder` | adapter/outbound/manager.go:129-131 | a full start order means nothing is missing and nothing circular |
| `ScopeTree.PlanDistinct` | adapter/lifecycle.go:147-164 | closing a scope runs no cleanup twice, over the whole tree below it |
| `ScopeTree.SiblingsDisjoint` | adapter/lifecycle.go:103-120 | nothing lies inside two scopes of the same parent |
| `ScopeTree.ReverseOrder` | adapter/lifecycle.go:150-160 | later entries run before, earlier after, and a component's whole scope at the place of its entry |
| `ScopeForest.CloseRunsRegistered` | adapter/lifecycle.go:147-164 | closing runs exactly the cleanups registered in the scopes it reaches |
| `ScopeForest.Scopes.Add` | adapter/lifecycle.go:90-94 | a cleanup is registered last, also in a closed scope |
| `ScopeForest.Scopes.Start` | adapter/lifecycle.go:96-120 | fails, changing nothing, exactly when the scope or one around it is closed; the closing of a component is registered at its first start only |
| `ScopeForest.Scopes.Remove` | adapter/lifecycle.go:134-145 | the component leaves list and map together and its scope is closed; unknown components are ignored |
| `ScopeForest.Scopes.Close` | adapter/lifecycle.go:147-164 | the log grows by exactly the plan of the scope, and exactly the scopes reached are cancelled and emptied |
| `ScopeForest.RunInv` | adapter/lifecycle.go:90-164 | over any sequence of operations no cleanup runs twice, none is lost, and map and list agree in every scope |
| `ScopeForest.RanStaysRun` | adapter/lifecycle.go:90-164 | a cleanup that has run is never registered again |
| `ReplaceOutbounds.BuildCandidates` | adapter/provider/graph.go:356-381 | exactly the unbuildable outbounds are invalid, no built one depends on an invalid one, and the built ones keep their order |
| `ReplaceOutbounds.MissingDependency` | adapter/provider/graph.go:438-450 | whether some dependency is invalid or found neither among the staged nor in the registry |
| `ReplaceOutbounds.RunStages` | adapter/provider/graph.go:382-409 | exactly the candidates that fail a stage or depend on an invalid one are invalid; the good ones are in the scope |
| `ReplaceOutbounds.StageCandidates` | adapter/provider/graph.go:353-419 | the bad candidates are taken down again: the scope holds the old components and exactly the good candidates; the inputs decide which are bad, and the good ones keep their order |
| `ReplaceOutbounds.RemoveOutboundsReverse` | adapter/provider/graph.go:452-465 | exactly the given components leave the scope |
| `ReplaceOutbounds.ReplaceStartedOutbounds` | adapter/provider/graph.go:328-436 | all or nothing: refused exactly for one of the stated reasons, each a condition on the inputs, with the registry unchanged and no candidate in the scope; on success exactly the affected outbounds are exchanged, and each is left out only for a reason |
| `ReplaceOutbounds.ReasonsDecide` | adapter/provider/graph.go:356-409 | a set of outbounds is the invalid ones exactly when each member, and no other outbound to rebuild, cannot be built, depends on a member or on nothing there is, or fails to start |
| `ReplaceOutbounds.CollectExpected` | adapter/provider/graph.go:330-339 | fails exactly when an affected old outbound is gone; else each affected old outbound as it is found now |
| `ReplaceRefusal.SameAffected` | adapter/provider/graph.go:250-289 | the affected outbounds do not depend on the order of the two lists |
| `ReplaceRefusal.RefusalDecided` | adapter/provider/graph.go:328-436 | two orders of the same outbounds have the same outcome: the inputs alone decide whether the replacement is refused |
| `ReplaceOutbounds.AppliedSound` | adapter/provider/graph.go:386-419 | no applied outbound depends on an invalid one |
| `ReplaceOutbounds.DependentsFirst` | adapter/provider/graph.go:429-434 | replaced outbounds are given back dependents first |
| `ReplaceOutbounds.NothingAffected` | adapter/provider/graph.go:346-348 | nothing to take out and nothing to build means nothing is affected, and conversely |
| `ReferenceRules.EvaluateLogical` | route/reference_rule.go:43-67 | the loop computes the value decided by a decisive member, else unknown if any is |
| `ReferenceRules.EvaluateRule` | route/reference_rule.go:69-85 | the recursive evaluation is the specification function |
| `ReferenceRules.EvaluateSound` | route/reference_rule.go:30-85 | whatever the other conditions decide, the static value permits what the rule does |
| `ReferenceRules.Realize` | route/reference_rule.go:30-85 | every answer the static value leaves open really occurs |
| `ReferenceScan.MatchRule` | route/route.go:689-799 | the scan ends at the first rule that matches and is final, or falls through |
| `ReferenceScan.CollectRuleReferences` | route/reference_rule.go:105-138 | collects exactly the targets of the rules considered, and reports exactly whether one always ends the scan |
| `ReferenceScan.FallThroughSound` | route/reference_rule.go:133-137 | if any connection can fall through, the analysis does not report the list as closed |
| `ReferenceScan.SelectionConsidered` | route/reference_rule.go:105-138 | the rule that takes a connection was considered, unless it is inverted and without conditions |
| `ReferenceScan.SoundExactlyWhen` | route/reference_rule.go:105-138 | the collected targets cover every connection exactly when no reachable blind rule has an otherwise unreferenced target |
| `ReferenceScan.BlindRuleIsMissed` | route/reference_rule.go:30-41 | a concrete rule that routes everything and is taken never to match |
| `ReferenceWorklist.Worklist` | route/reference.go:189-207 | marks exactly the registered tags reachable from the roots |
| `ReferenceWorklist.TransportWorklist` | route/reference.go:171-188 | marks exactly the reachable transports and passes on exactly the outbounds they name |
| `ReferenceWorklist.ReferenceManager.Update` | route/reference.go:115-253 | roots are exactly the collected and given ones, marks exactly the reachable, and every present keeper was last told its current status |
| `ReferenceWorklist.ReferenceManager.ApplyKeepIdle` | route/reference.go:269-279 | a keeper is told only on a change, and what is remembered stays what was last told |
| `ReferenceWorklist.ReferenceManager.Loop` | route/reference.go:103-113 | after any sequence of updates every keeper of the latest world was last told whether it is referenced |
| `ReferenceWorklist.ChosenIsReferenced` | route/reference.go:139-207 | for every truth of the other conditions the registered outbound the scan chooses is marked |
| `ReferenceWorklist.DefaultIsReferenced` | route/reference.go:139-144 | so is the default, when a connection can fall through |
| `ReferenceWorklist.UsedIsClosed` | route/reference.go:200-206 | what a marked outbound refers to is marked, if registered |
| `DnsMessage.ComputeTimeToLive` | dns/client.go:202-220 | the least positive time to live of all records but OPT, or the negative time to live of section 5 of RFC 2308 |
| `DnsMessage.ExtractNegativeTTL` | dns/client.go:188-200 | the smaller of TTL and MINIMUM of the first SOA record |
| `DnsMessage.LeastPositiveUnique` | dns/client.go:209-219 | that least value is determined by the records |
| `DnsMessage.NormalizeTTL` | dns/client.go:222-231 | every record but OPT carries the value, and nothing else changes |
| `DnsMessage.NormalizedTwice` | dns/client.go:222-231 | setting again depends on the last value only, so a copy can be aged any number of times |
| `DnsMessage.EdnsFits` | dns/client.go:391-400 | the client gets an OPT record exactly when both sides sent one, with the server's size and DO flag and at most the client's version; nothing else changes |
| `ClientSubnet.ClientSubnetFromMessage` | dns/extension_edns0_subnet.go:16-35 | the key prefix of the first subnet option, in the order of records and options |
| `ClientSubnet.RemoveClientSubnet` | dns/extension_edns0_subnet.go:37-60 | no subnet option is left and everything else is as it was |
| `ClientSubnet.SetClientSubnet` | dns/extension_edns0_subnet.go:62-106 | the given subnet replaces the first subnet option or is added, later ones stay, all else is unchanged, and the number of OPT records grows by one exactly when none is found to reuse |
| `ClientSubnet.SecondOptRecord` | dns/extension_edns0_subnet.go:67-90 | from at most one OPT record there is still at most one exactly unless there is one and one is added |
| `ClientSubnet.SecondOptHappens` | dns/extension_edns0_subnet.go:67-90 | a concrete message that comes out with two OPT records |
| `ClientSubnet.KeyIsMeaning` | dns/extension_edns0_subnet.go:27-31 | the key names the subnet the option means exactly when it is not an IPv4-mapped IPv6 option |
| `ClientSubnet.KeysSeparate` | dns/extension_edns0_subnet.go:27-31 | apart from those, equal keys mean equal subnets |
| `ClientSubnet.MappedOptionsCollide` | dns/extension_edns0_subnet.go:27-31 | two options with different subnets and one key |
| `ClientSubnet.EcsOfMeans` | dns/extension_edns0_subnet.go:98-104 | the option written for a configured subnet means that subnet |
| `DnsCache.KeySubnetIsActual` | dns/client.go:116-142 | the key's subnet is what every subnet option of the message sent means exactly when they are removed, or those after the first agree with the subnet asked for, or the forwarded ones all agree and the first is well-formed and not IPv4-mapped IPv6 |
| `DnsCache.SingleOptionIsActual` | dns/client.go:116-142 | with at most one option, which means something, exactly unless an IPv4-mapped IPv6 one is forwarded |
| `DnsCache.SecondOptionStays` | dns/extension_edns0_subnet.go:67-79 | a concrete request whose second subnet is still sent, under a key that does not name it |
| `DnsCache.SecondOptionShares` | dns/extension_edns0_subnet.go:16-35 | two concrete requests with different second subnets and one key |
| `DnsCache.LookupKeyAgrees` | dns/client.go:572-583 | a lookup's key, built before the message is prepared, has the same subnet |
| `DnsCache.ApplyResponseOptions` | dns/client.go:658-681 | forbidden HTTPS hints are out and every record carries the time to live that is returned |
| `DnsCache.Client.PrepareExchangeMessage` | dns/client.go:733-745 | every subnet option is gone, or the first is the one asked for and the later ones stay, or the message is as it was |
| `DnsCache.Client.NewCacheKey` | dns/client.go:116-133 | the key for a prepared message, its subnet taken from the options, the configuration or the message |
| `DnsCache.Client.BeginExchange` | dns/client.go:260-305 | loops, empty questions and forbidden families are answered at once; caching is on exactly for simple requests and their key fits the message sent |
| `DnsCache.Client.FinishExchange` | dns/client.go:364-403 | a response is stored exactly when cacheable, accepted, simple and under an unchanged environment; a rejected one never is, and what was learned under another environment is not touched |
| `DnsCache.Client.FinishRefresh` | dns/client.go:697-728 | a background refresh stores under the same conditions and touches no other environment |
| `DnsCache.Client.StoreCache` | dns/client.go:521-541 | every entry keeps coming from an exchange of its key; a zero time to live is not stored |
| `DnsCache.Client.LoadResponse` | dns/client.go:598-630 | fresh until the stored time to live has run out, with the whole seconds left on every record; stale with one second while the optimistic timeout runs; then gone |
| `DnsCache.EntryAnswersKey` | dns/client.go:116-142 | what is stored under a key answers a message that names the key's subnet and no other, exactly when the request was unambiguous |
| `SingleFlight.RunInv` | dns/client.go:302-361 | in every interleaving the lock map, owners, channels and waiters are consistent |
| `SingleFlight.OneOwner` | dns/client.go:306-312 | a key is in the lock map exactly while one unreleased caller owns it |
| `SingleFlight.ClosedOnce` | dns/client.go:253-258 | a channel is closed at most once, an owner's exactly when its exchange is over, whichever way |
| `SingleFlight.WaitsOnce` | dns/client.go:332-350 | nobody waits twice |
| `SingleFlight.OneUnwaitedAsks` | dns/client.go:302-361 | of the callers asking for one key at once at most one has not waited first |
| `SingleFlight.NoStuckWaiter` | dns/client.go:338-342 | the channel a caller waits for is closed, or its owner is on the way to closing it and not waiting |
| `SingleFlight.NeverStuck` | dns/client.go:405-454 | as long as a caller is unfinished some step other than an arrival is possible |
| `SingleFlight.BoundedWork` | dns/client.go:302-361 | a run takes at most eight steps for each caller besides its arrival |
| `SingleFlight.Exchanges.LoadOrStore` | dns/client.go:306-312 | the atomic load-or-store is the entering step and keeps the invariants |
| `SingleFlight.Exchanges.Look` | dns/client.go:314-337 | a turn of the loop is a hit or a miss step |
| `SingleFlight.Exchanges.Resume` | dns/client.go:338-349 | a waiter goes on exactly when its channel is closed, or gives up |
| `SingleFlight.Exchanges.DeleteKey` | dns/client.go:308-310 | the first half of a release frees the key of its owner |
| `SingleFlight.Exchanges.CloseChannel` | dns/client.go:308-311 | the second half closes the owner's channel |
| `InterfaceUpdate.RunInv` | route/network.go:499-571 | in every reachable state the mutex holder, the latest update, the claims and the pending flag are consistent |
| `InterfaceUpdate.BodiesExclusive` | route/network.go:524-528 | update bodies never overlap |
| `InterfaceUpdate.ClaimedOnce` | route/network.go:562-567 | a notification is answered by at most one reset |
| `InterfaceUpdate.OnlyCurrentClaims` | route/network.go:562-567 | only the latest, un-cancelled update claims a reset, and it answers everything still pending |
| `InterfaceUpdate.NothingLost` | route/network.go:499-571 | in a quiescent state whose last dispatch found an interface and was not cut short, no reset is pending |
| `InterfaceUpdate.NeverStuck` | route/network.go:524-571 | an update that has not ended can move, or waits for one that can |
| `InterfaceUpdate.NetworkManager.DispatchInterfaceUpdateLocked` | route/network.go:508-522 | the latest update supersedes the one before, which is cancelled |
| `InterfaceUpdate.NetworkManager.NotifyInterfaceUpdate` | route/network.go:499-506 | the notification is recorded, and dispatched once started |
| `InterfaceUpdate.NetworkManager.EnterUpdate` | route/network.go:525-526 | the update mutex is taken, one holder at a time |
| `InterfaceUpdate.NetworkManager.CheckContext` | route/network.go:527-529 | a cancelled update leaves the body |
| `InterfaceUpdate.NetworkManager.LookUpInterface` | route/network.go:540-547 | an update whose interface has gone leaves the body |
| `InterfaceUpdate.NetworkManager.ClaimReset` | route/network.go:562-567 | the pending reset is claimed exactly by an un-cancelled update |
| `InterfaceUpdate.NetworkManager.ResetNetwork` | route/network.go:568-571 | the update ends and frees the mutex |
| `SavedBinary.UvarintRoundTrip` | adapter/experimental.go:71-74 | every 64-bit length is read back, whatever follows it |
| `SavedBinary.UvarintPrefix` | adapter/experimental.go:109-112 | a number cut short is rejected |
| `SavedBinary.WriteUvarint` | adapter/experimental.go:71-74 | the loop writes the encoding, seven bits at a time |
| `SavedBinary.ReadUvarint` | adapter/experimental.go:109-112 | the loop reads at most ten bytes and rejects what does not fit 64 bits |
| `SavedBinary.Int64RoundTrip` | adapter/experimental.go:79-82 | every 64-bit instant is read back |
| `SavedBinary.BlockRoundTrip` | adapter/experimental.go:113-120 | a field is read back whatever follows it |
| `SavedBinary.RoundTrip` | adapter/experimental.go:65-156 | decoding an encoded record gives it back up to whole seconds |
| `SavedBinary.VersionOneRoundTrip` | adapter/experimental.go:140-142 | version 1 data decodes without a hash |
| `SavedBinary.PrefixRejected` | adapter/experimental.go:102-156 | every strict prefix of an encoding is rejected |
| `SavedBinary.Record.MarshalBinary` | adapter/experimental.go:65-100 | the buffer is the encoding of the record |
| `SavedBinary.Record.UnmarshalBinary` | adapter/experimental.go:102-156 | field by field, the record and the error are those of the decoder, also when it stops half way |

## Left out

- Transports, sockets, sniffing and dialing: behind interfaces, left as arbitrary replies.
- Rule matching inside route/rule: an arbitrary function; deferred address matching of rule sets is not modelled.
- Legacy DNS mode, lookups through rules and strategy finalisation: other loops over the same walk.
- exchangeWithRulesAsync: only its shortcut to the blocking form differs from the walk that is modelled.
- Cancellation of a request in the middle of a rule: a request gives up only where it waits.
- Persistent DNS cache and rejected-response store: behind interfaces, and their key drops the question class.
- The rounding of cache lifetimes by the LRU library and of seconds by floating point: times are exact.
- Eviction order of the LRU cache: any entry may be dropped at any time.
- collectDNSRuleReferences: the same shape as collectRuleReferences; transports it collects enter as roots.
- Transport resets in ReferenceManager.update: only keep-idle status is modelled.
- replaceUnstartedOutbounds and its rollback: creation before start goes through Create and Remove, which are modelled.
- Sharing of option structures between outbounds, and cloning: options are values, so aliasing is not captured.
- Sharing of messages between caller and cache: messages are values, so copying is not captured.
- Scopes as heap objects: scopes are numbered in order of creation, which captures the tree but not the pointers.
- Races inside Scope.Start after its lock is released, and cleanups that themselves use scopes.
- Start stages other than the ordered one, and the fallback default outbound of the manager's first stage.
- DNS transport start order: the same algorithm as startOutbounds.
- OutboundRegistry.Manager.Remove: stopping the removed outbound in the scope is not part of its contract; ReplaceOutbounds.RemoveOutbound models that call over the scope tree.
- OutboundRegistry.Manager.Create: building and starting come in as one outcome, and stopping the replaced outbound is left out in the same way.
- Which of several failing checks refuses a batch swap: the order of map iteration leaves that open in the source too.
- ReplaceOutbounds.ReplaceStartedOutbounds: the new list is required to have distinct tags with dependencies first, which is what ProviderImport.PrepareList gives.
- DnsWalkLoop.RuleWalk.OnRace: no exchange completes while the rule is parked and swept; the machine of DnsWalk.dfy has those interleavings.
- DnsWalkLoop.RuleWalk.SweepNow: no exchange completes during the sweep, in the same way.
- DnsWalkLoop.RuleWalk.TestRule: no exchange completes between the readiness test and the action, in the same way.
- DnsWalkLoop.RuleWalk.OneRule: no exchange completes during the turn, in the same way.
- DnsWalkLoop.RuleWalk.WalkRules: no exchange completes during the walk, in the same way.
- ProviderCapture.CapturedByCount: the names given are a closed form only when no cleaned name is a numbered form of another; otherwise they depend on the order in which numbers are taken.
- Publishing the applied outbounds, health checks and closing of replaced outbounds after an update.
- Error texts and logging, except for what a circular or missing dependency message claims.
