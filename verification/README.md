# Model of the planning engine, suggest rules, SSO sessions and streaming

This project models five parts of a tax-research and tax-planning application and proves what they promise.

* **Suggest rules.** `FactPaths` and `Suggest` model the three-valued rule evaluator: fact paths with `[]` selectors,
  Kleene connectives, the polarity walk that explains a verdict, and the older two-valued evaluator. A definite verdict
  survives every completion of the facts; "unknown" is tight; the explanation agrees with the verdict.
* **Tax engine and projection.** `Money`, `Brackets`, `Totals`, `ProRata`, `Passive`, `Capital`, `Qbi`, `Flows`,
  `ComputeYear`, `Scenario`, `Strategies` and `ScenarioLimits` model integer-cent arithmetic from entity flow-through to
  income tax before credits, the year loop with its two carries, and the carry-threaded timing strategies. The laws are
  conservation and rounding bounds over any number of rows, activities and years.
* **Sessions.** `Sessions` is a transition system over identity rows, refresh rows, the revocation list, minted tokens and
  a clock, one handler per step; `SessionInvariants` and `SessionSafety` prove its properties over every run;
  `AuthServer` writes the handlers as statements over the tables and proves each equal to its step. `Browser` models one
  tab's single-flight refresh with any number of concurrent requests.
* **Laws.** `SuggestLaws`, `TaxLaws`, `YearLaws`, `ScenarioLaws`, `CanonicalLaws`, `StreamLaws`, `SessionLaws` and
  `BrowserLaws` state what the central operations answer in terms of their inputs alone: the number compared, the path as
  written, the cent added, the arguments of the sign-on, the characters printed.
* **Canonical JSON.** `CanonicalJson` holds the serialiser and a parser for the grammar of sections 2 to 7 of RFC 8259;
  `CanonicalJsonProofs` proves the round trip and that the text identifies a value exactly up to key order.
* **Streams.** `Sse` models the incremental frame splitter of the chat client, a subset of section 9.2.6 of the WHATWG
  HTML standard; `Chat` models message normalisation, block assembly and the retry loop.

Money is `int` cents as in the source; rates and dollar inputs are exact reals. `Round` is `Math.round` (ties up),
`MulRate` and `ToDollars` round half away from zero. Code that updates state is written as methods, with loops where the
source has loops, proved against specification functions; the laws are lemmas about those functions. Every lemma switches
automatic induction off, so each induction is written out in its body.

Where a promise of the source is not met in all cases, a lemma states exactly when it is met:

* `Passive.SuspensionNeverNegativeExactly`: giving the rounding residual to the last loss activity never produces a
  negative suspension for up to three loss activities, and can for every larger number, whatever the table.
* `ScenarioLimits`: input order must never matter, and each timing strategy keeps its own books; but the scenario route
  (`apps/api/src/routes/planning/plans.ts:340-351`) accepts one strategy twice, the carry is keyed by strategy id, and
  ties keep the order in which they were handed over. `OrderIsFreeExactly`, `CarryIsSoloExactly` and the three
  `...BalancesExactly` say that the laws hold exactly when order keys, or the id, do not repeat.
* `Strategies.WithinTermExactly`: the installment note says the gain is recognised over the term; rounding the tranche
  down can leave a remainder (`SpreadCanOutliveItsTerm`), and a tranche that rounds to zero is never recognised
  (`DeferralEndsExactly`).
* `SessionSafety.EndedForeverExactly`: an ended session stays ended exactly when the configured access lifetime is at
  most the 24 hours of a revocation record; the lifetime is an unchecked environment setting (15 minutes by default).
* `SessionSafety.AlwaysFindableExactly`: a back-channel logout can find every refreshable session exactly when the refresh
  token lives at most the 30 days of its row. The sweep and the refresh handler disagree about a row in its last millisecond.
* `Browser.PresentsOnceExactly`: every refresh token is presented at most once exactly when `authedFetch`, which leaves a
  denied token in the store, is not among the callers; `PresentedAtMostOnceExactly` says which runs present one twice.
* `SessionSafety.FreshAccessWorksExactly`: token times are whole seconds and revocation moments milliseconds, so a login in
  the same second as a person-level logout gets a pair that never works.
* `Suggest.StablePathExactly`: without the schema's rule that null never sits directly in an array, a verdict is stable
  exactly for the paths that resolve to no null.
* `Brackets.StackedWidth`: the stacked layers add up to the preferential income exactly when ordinary income is not negative.
* `CanonicalJsonProofs.CanonicalExactly`: equal text exactly for equal JSON values.

## Model

| member | source | states |
|---|---|---|
| FactPaths.ResolveFactPath | packages/shared/src/planning/suggest.ts:163-201 | the breadth-first loop resolves every path as a depth-first walk of one branch at a time does, so absent, empty and present keep apart |
| FactPaths.ExpandSegment | packages/shared/src/planning/suggest.ts:171-192 | expanding one segment over the whole frontier loses no branch and raises the missing and selector flags exactly when the walk does |
| FactPaths.FollowFills | packages/shared/src/planning/suggest.ts:163-201 | filling in absent or null parts keeps every value a path reaches, and keeps the result position by position when nothing was missing |
| FactPaths.UnselectedIsSingle | packages/shared/src/planning/suggest.ts:194-199 | a path without a selector reaches one live value or is a plain miss |
| Suggest.LeafKeepsVerdict | packages/shared/src/planning/suggest.ts:219-234 | a definite leaf verdict is unchanged by every completion when the path resolves to no null |
| Suggest.NodeKeepsVerdict | packages/shared/src/planning/suggest.ts:203-241 | every nesting of all, any and not is monotone in the information order |
| Suggest.DefiniteStatusSurvivesCompletion | packages/shared/src/planning/suggest.ts:296-340 | a rule reported matched or excluded keeps that status under every completion of the facts, given the fact schema's array rule |
| Suggest.StablePathExactly | packages/shared/src/planning/suggest.ts:219-234 | a path is stable under all completions and all leaves if and only if it resolves to no null |
| Suggest.Explanation.Collect | packages/shared/src/planning/suggest.ts:308-327 | the walk appends to each list exactly the occurrences below the node with that effective value, in order |
| Suggest.Explanation.CollectAll | packages/shared/src/planning/suggest.ts:309-328 | the same for a list of nodes |
| Suggest.EvaluateSuggestRuleTri | packages/shared/src/planning/suggest.ts:296-340 | status and the three lists, as functions of the rule and the facts |
| Suggest.EachOccurrenceListedOnce | packages/shared/src/planning/suggest.ts:321-328 | the three lists together account for every leaf occurrence, each under its effective value |
| Suggest.VerdictBySettling | packages/shared/src/planning/suggest.ts:203-241 | the verdict equals the negation-normal form with every unknown occurrence settled against it, then for it |
| Suggest.UnknownIsTight | packages/shared/src/planning/suggest.ts:203-241 | true, false and unknown hold exactly when all, none, or not all of the independent settlings of unknown occurrences give true |
| Suggest.VerdictHasEvidence | packages/schema/src/strategy-record.ts:55-72 | with non-empty all/any lists some occurrence has, effectively, the value of the whole node |
| Suggest.StatusHasNonEmptyList | packages/shared/src/planning/suggest.ts:328-338 | the list that belongs to the status is never empty for an authored rule |
| Suggest.NothingToConfirmIsDefinite | packages/shared/src/planning/suggest.ts:330-332 | an empty toConfirm list means a definite status |
| Suggest.NodeAgreesWithLegacy | packages/shared/src/planning/suggest.ts:105-110 | on nodes without facts leaves the three-valued verdict is the two-valued one |
| Suggest.RuleAgreesWithLegacy | packages/shared/src/planning/suggest.ts:127-137 | on rules without facts leaves, empty lists and clause-free rules included: matched exactly as before and never to confirm |
| Money.ToDollars | packages/engine/src/money.ts:12-14 | whole-dollar rounding moves an amount by at most 50 cents |
| Brackets.TaxFromBrackets | packages/engine/src/modules/brackets.ts:9-21 | the loop sums the rounded tax of the slices of each row, and is within half a cent per row of taxing every cent at its marginal rate |
| Brackets.TaxPreferential | packages/engine/src/modules/brackets.ts:27-46 | the same for income stacked on ordinary income: within half a cent per row of G(ordinary + preferential) - G(ordinary) |
| Brackets.LayersTile | packages/engine/src/modules/brackets.ts:13-19 | the slices add up to the income taxed, and unrounded they are the cent-by-cent tax |
| Brackets.LayersMonotone | packages/engine/src/modules/brackets.ts:9-21 | the rounded tax is exactly monotone in income |
| Brackets.StackedWidth | packages/engine/src/modules/brackets.ts:33-45 | the stacked widths add up to the preferential income if and only if ordinary income is not negative |
| Passive.ReleaseSuspension | packages/engine/src/modules/passive.ts:37-50 | the release loop yields the netted activities and the remaining suspension of its specification |
| Passive.ReleaseConserves | packages/engine/src/modules/passive.ts:37-50 | what release takes out of income it takes out of the suspension |
| Passive.AllowanceCap | packages/engine/src/modules/passive.ts:68-69 | the allowance is never negative, never above the table's, and whole up to the phase-out start |
| Passive.SuspendProRata | packages/engine/src/modules/passive.ts:82-93 | the allocation loop adds the rounded shares, the last one taking the residual |
| Passive.ProRataBounds | packages/engine/src/modules/passive.ts:78-93 | shares sum exactly to the newly suspended amount, all but the last are within half a cent of exact, the last is above -(k-1)/2 cents |
| Passive.SuspensionNeverNegativeExactly | packages/engine/src/modules/passive.ts:78-93 | whatever the table and the income, no year with k loss activities turns non-negative suspensions into a negative one if and only if k is at most three |
| Passive.FourEqualLosses | packages/engine/src/modules/passive.ts:65-93 | four rentals at -$1 in the phase-out range leave suspensions of 1, 1, 1 and -1 cents |
| Passive.PassiveConserves | packages/engine/src/modules/passive.ts:21-104 | in every branch included income minus suspended out equals net rental income minus suspended in, in cents |
| Passive.AbsentActivitiesUntouched | packages/engine/src/modules/passive.ts:39-46 | an activity absent this year keeps its suspension |
| Passive.ComputePassive | packages/engine/src/modules/passive.ts:21-104 | the five results, their conservation law, and the allowance as a bound on the allowed loss |
| ProRata.SharesDrift | packages/engine/src/compute-year.ts:57-76 | shares without a residual drift from the amount by at most half a cent per recipient |
| Capital.NetCapital | packages/engine/src/modules/capital.ts:16-44 | netting loses nothing; a carry out means exactly $3,000 was used, and is left exactly when the net loss exceeds it |
| Capital.CapitalDrift | packages/engine/src/compute-year.ts:110-115 | over any number of years the books balance to 50 cents a year, the whole-dollar carry's rounding |
| Capital.CapitalTelescopes | packages/engine/src/compute-year.ts:110-115 | with whole-dollar gains, amounts recognised minus the final carry equal all gains minus the opening carry |
| Capital.CarryRunsOut | packages/engine/src/modules/capital.ts:25-33 | without new net losses the carry falls by $3,000 a year, so it is gone within ceil(carry / 3000) years |
| Qbi.ComputeQbiDeduction | packages/engine/src/modules/qbi.ts:17-77 | the loop and its branches compute the deduction stated by its limits |
| Qbi.WageLimitPhasesIn | packages/engine/src/modules/qbi.ts:42-58 | a positive component lies between the wage-limited and the tentative amount, unlimited at ratio 0, fully limited at ratio 1, and nothing for a service business at ratio 1 |
| Qbi.DeductionWithinCap | packages/engine/src/modules/qbi.ts:61-76 | the deduction is between 0 and the overall cap in every branch |
| Flows.ChargeEmployerFica | packages/engine/src/compute-year.ts:57-64 | the in-place split charges each paying entity its rounded share and no other entity anything |
| Flows.AllocatePtet | packages/engine/src/compute-year.ts:65-95 | the allocation, in the profitable, loss-year and no-entity branches |
| Flows.AllocateFlows | packages/engine/src/compute-year.ts:51-95 | the flows after both splits |
| Flows.PtetNeverTouchesScheduleC | packages/engine/src/compute-year.ts:65-76 | a Schedule C flow never changes because of PTET |
| Flows.PtetIsSplit | packages/engine/src/compute-year.ts:69-76 | in a profitable year what is deducted departs from what was paid by at most half a cent per recipient |
| Flows.PtetInLossYear | packages/engine/src/compute-year.ts:77-95 | in a loss year all of it is deducted if some entity could elect, and nothing otherwise |
| Flows.FicaIsCharged | packages/engine/src/compute-year.ts:57-64 | the employer half charged departs from the amount by at most half a cent per payer |
| ComputeYear.ComputeYear | packages/engine/src/compute-year.ts:31-223 | AGI, the QBI deduction, taxable income, both tax lines and the carry out, as functions of profile, table and carry in |
| ComputeYear.PassiveLines | packages/engine/src/compute-year.ts:137-148 | the rental amount included and the suspension out, with the carry read as whole dollars |
| ComputeYear.QbiLines | packages/engine/src/compute-year.ts:168-207 | the section 199A lines, service-level reductions and the reduction hook included |
| ComputeYear.Largest | packages/engine/src/compute-year.ts:198 | the hook's target is the first component with the largest QBI |
| ComputeYear.TaxLines | packages/engine/src/compute-year.ts:211-222 | ordinary income first, preferential income stacked on top |
| ComputeYear.QbiComesOutOfOrdinaryIncome | packages/engine/src/compute-year.ts:166-216 | taxable income is exactly pre-QBI income less the deduction, and the preferentially taxed part of income is left whole |
| ComputeYear.TaxLinesWithinHalfCentPerRow | packages/engine/src/compute-year.ts:211-223 | the two lines together are within half a cent per table row of the exact tax on ordinary cents and on the cents above them |
| ComputeYear.CarryRounding | packages/engine/src/compute-year.ts:316-321 | the whole-dollar carry departs from the cents by at most 50 per carried activity, plus the entries it drops |
| ComputeYear.DroppedResidual | packages/engine/src/compute-year.ts:317-320 | what the carry drops is below half a cent per loss activity, and nothing with up to two |
| ComputeYear.YearPassiveDrift | packages/engine/src/compute-year.ts:139-148 | a whole year keeps the passive books balanced up to those two bounds |
| Scenario.OthersLeaveCarryAlone | packages/engine/src/scenario.ts:97-113 | transforms with other ids, whatever they do, leave a strategy's carry record as it was |
| Scenario.TransformYear | packages/engine/src/scenario.ts:97-113 | the inner loop applies the transforms in order to profile, notes and carry |
| Scenario.ComposeScenario | packages/engine/src/scenario.ts:70-121 | the year loop gives the years and notes of the projection that threads both carries |
| ScenarioLimits.OrderIsFreeExactly | packages/engine/src/scenario.ts:72-82 | for a list of (applyOrder, strategyId) keys: every permutation gives the same years and notes, over all transform functions and lengths, if and only if no key repeats |
| ScenarioLimits.OrderOfTwoSalesMatters | packages/engine/src/scenario.ts:72-113 | a $100 and a $10 installment sale under one id: one order brings $5 back in the second year, the other $50 |
| Scenario.CapitalCarryThreads | packages/engine/src/scenario.ts:84-118 | the engine's capital carry after any number of years is year-by-year netting of the transformed profiles |
| Scenario.CapitalTelescopesOverScenario | packages/engine/src/scenario.ts:84-118 | over a whole scenario with whole-dollar gains, amounts recognised minus the final carryforward are all the gains there were |
| Scenario.PassiveCarryNonNegative | packages/engine/src/compute-year.ts:316-321 | no year of a scenario starts with a negative suspension, so the yearly bound holds in every year |
| Scenario.PassiveBooksOverScenario | packages/engine/src/scenario.ts:84-118 | over a whole scenario, rental income included less the suspension still carried is all net rental income, up to the sum of the yearly bounds |
| ScenarioLimits.CarryIsSoloExactly | packages/engine/src/scenario.ts:87-113 | for a list of ids: over all transforms and lengths the k-th strategy's carry is the one it builds alone from the profiles it receives, if and only if its id occurs once |
| Strategies.InstallmentSchedule | packages/strategies/src/factories/index.ts:214-244 | deltas plus the outstanding remainder sum to zero, and the remainder falls by one tranche per later year |
| Strategies.FullyRecognisedExactly | packages/strategies/src/factories/index.ts:236-243 | everything is recognised after n later years if and only if n tranches cover what was deferred |
| Strategies.WithinTermExactly | packages/strategies/src/factories/index.ts:229-232 | the gain is recognised within the term if and only if the later tranches cover what was on hand, or the term's tranches cover the gain |
| Strategies.DeferralEndsExactly | packages/strategies/src/factories/index.ts:221-226 | the deferral ever ends if and only if nothing was deferred or the gain is at least half a dollar per year, and then within ceil(deferred / tranche) years |
| Strategies.SpreadCanOutliveItsTerm | packages/strategies/src/factories/index.ts:229-232 | $7 over 5 years leaves $2 outstanding after the term |
| Strategies.BracketTelescopes | packages/strategies/src/modules/tp12-modules.ts:645-668 | income moved out over the years is exactly what is still carried |
| Strategies.NolYear | packages/strategies/src/modules/tp12-modules.ts:699-742 | one year deducts at most 80% of the income estimate and exactly what leaves the balance |
| Strategies.NolConserved | packages/strategies/src/modules/tp12-modules.ts:699-742 | deducted over the years plus remaining is the opening loss |
| ScenarioLimits.InstallmentBalancesExactly | packages/engine/src/scenario.ts:89-113 | inside a composition the installment deltas plus the carried remainder sum to zero, whatever the other transforms do, if and only if the id occurs once |
| ScenarioLimits.BracketBalancesExactly | packages/engine/src/scenario.ts:89-113 | the same for bracket management |
| ScenarioLimits.NolBalancesExactly | packages/engine/src/scenario.ts:89-113 | the same for NOL planning, over at least one year |
| ScenarioLimits.TwoSalesLoseOne | apps/api/src/routes/planning/plans.ts:340-351 | two installment sales, which the route accepts: both halves leave the first year and only one ever comes back |
| CanonicalJsonProofs.CanonicalTextParses | apps/api/src/lib/canonical-json.ts:9-22 | the text is JSON and denotes the value |
| CanonicalJsonProofs.ParsePrinted | apps/api/src/lib/canonical-json.ts:9-22 | whatever follows a printed value, parsing gives its meaning back and leaves what follows |
| CanonicalJsonProofs.EntriesKeepMeaning | apps/api/src/lib/canonical-json.ts:17-20 | dropping undefined fields and sorting keeps the members and their values |
| CanonicalJsonProofs.SameMeaningSameText | apps/api/src/lib/canonical-json.ts:9-22 | values equal up to key order, dropped undefined fields and undefined-to-null print the same text |
| CanonicalJsonProofs.CanonicalExactly | apps/api/src/lib/canonical-json.ts:9-22 | same text if and only if same JSON value |
| CanonicalJsonProofs.ReprintingIsStable | apps/api/src/routes/archives.ts:104-111 | a value read back from the text prints the same text, however the store ordered its keys |
| Sse.Reader.Feed | apps/web/src/hooks/useChatStream.ts:124-172 | one chunk delivers every frame it completes, in order, keeps the rest, and remembers a closing event |
| Sse.Reader.Consume | apps/web/src/hooks/useChatStream.ts:118-173 | the read loop delivers and keeps what splitting the whole text does, and remembers whether a closing event came |
| Sse.ParseSse | apps/web/src/hooks/useChatStream.ts:214-228 | the line loop reads the event name and the joined data of a frame |
| Sse.SplitResumes | apps/web/src/hooks/useChatStream.ts:124-128 | splitting a text can be resumed from the residue of any prefix |
| Sse.ChunkingNeverMatters | apps/web/src/hooks/useChatStream.ts:115-173 | for every way to cut the text the frames, their order and the residue are those of the whole text |
| Sse.EventsSurviveTheWire | apps/api/src/routes/chats/messages.ts:342-356 | what the server writes, heartbeats included, reaches the client as exactly the events sent, however it is cut |
| Chat.NormalizeMessages | apps/api/src/lib/anthropic/chat.ts:122-134 | the loop yields one message per maximal run of one role, contents joined by blank lines |
| Chat.RunsPartition | apps/api/src/lib/anthropic/chat.ts:122-134 | the runs lose and move no message |
| Chat.NormalisedAlternates | apps/api/src/lib/anthropic/chat.ts:114-121 | the result strictly alternates roles |
| Chat.ChatStream.OnEvent | apps/api/src/lib/anthropic/chat.ts:258-322 | the switch: block table, usage counters and output after one upstream event |
| Chat.ChatStream.StreamOnce | apps/api/src/lib/anthropic/chat.ts:245-324 | one pass emits what the events up to the message stop emit and counts their usage |
| Chat.ChatStream.StreamChat | apps/api/src/lib/anthropic/chat.ts:205-231 | at most three attempts; the caller sees the events of the one settling attempt and nothing of any other, with usage from that attempt only |
| Chat.InterleavingNeverMatters | apps/api/src/lib/anthropic/chat.ts:255-292 | what a block yields is what its own events alone would yield |
| Chat.WellFormedBlockYieldsOneCall | apps/api/src/lib/anthropic/chat.ts:259-292 | a tool block interleaved with anything stops at one place, and there the caller sees one call with the block's own deltas in order |
| Chat.TextKeepsOrder | apps/api/src/lib/anthropic/chat.ts:268-271 | text reaches the caller delta by delta, in order |
| Chat.EmissionAt | apps/api/src/lib/anthropic/chat.ts:252-292 | reading the shared block table emits what looking at each block alone would |
| AuthServer.Server.RevokeRefreshBySid | apps/api/src/lib/sessions.ts:50-56 | every unrevoked row of the sid is revoked now, nothing else changes |
| AuthServer.Server.RevokeRefreshByUser | apps/api/src/lib/sessions.ts:58-70 | every unrevoked row of the user but the spared ones is revoked |
| AuthServer.Server.IssueTokens | apps/api/src/lib/sessions.ts:25-48 | one fresh row and a pair that carries user and sid |
| AuthServer.Server.EndSsoSession | apps/api/src/lib/vibeAuth.ts:143-149 | identity row, refresh chain and revocation record in one effect |
| AuthServer.Server.Create | apps/api/src/lib/vibeAuth.ts:154-193 | park, stash the code, sweep |
| AuthServer.Server.Sweep | apps/api/src/lib/vibeAuth.ts:137-192 | exactly the rows past the grace hour without a live chain are deleted |
| AuthServer.Server.Destroy | apps/api/src/lib/vibeAuth.ts:195-199 | the package's logout ends the session of a verified token |
| AuthServer.Server.DestroyByIdentity | apps/api/src/lib/vibeAuth.ts:230-266 | the two loops have the effect and the count of one back-channel logout (section 2.7 of OpenID Connect Back-Channel Logout 1.0) |
| AuthServer.Server.SsoExchange | apps/api/src/routes/auth.ts:159-202 | the exchange step |
| AuthServer.Server.Revoked | apps/api/src/middleware/auth.ts:42-52 | the revocation rule: issued at or before the moment, until the record lapses |
| AuthServer.Server.RequireAuth | apps/api/src/middleware/auth.ts:60-101 | a request gets through exactly when its token verifies and is not revoked |
| AuthServer.Server.PostRefresh | apps/api/src/routes/auth.ts:206-263 | the refresh step |
| AuthServer.Server.PostLogout | apps/api/src/routes/auth.ts:265-284 | the logout step |
| AuthServer.Server.PostChangePassword | apps/api/src/routes/auth.ts:308-349 | the password-change step, the caller's own chain spared |
| SessionInvariants.StepKeeps | apps/api/src/routes/auth.ts:159-284 | every step keeps the invariant over rows, tokens, sids and the revocation list |
| SessionInvariants.RunKeeps | apps/api/src/routes/auth.ts:159-284 | so does every run |
| SessionSafety.EndedStaysEnded | apps/api/src/lib/vibeAuth.ts:143-149 | over every run, once a session is ended no access token with its sid is accepted and no refresh with it succeeds |
| SessionSafety.EndedForeverExactly | apps/api/src/lib/vibeAuth.ts:74-75 | that promise holds over all runs if and only if the access lifetime is at most 24 hours |
| SessionSafety.NothingMintedForClosed | apps/api/src/routes/auth.ts:159-263 | no step mints a token for an ended sid |
| SessionSafety.PersonStaysSignedOut | apps/api/src/lib/vibeAuth.ts:253-264 | a logout naming a person ends every token and every chain that person then had, for good |
| SessionSafety.FreshAccessWorksExactly | packages/db/src/schema/vibe-auth.ts:57-58 | a fresh access token is accepted if and only if it has a lifetime and every revocation that still counts lies before the current second |
| SessionSafety.FreshRefreshWorksExactly | apps/api/src/routes/auth.ts:231-247 | a fresh refresh token can be exchanged under the same condition for an active user |
| SessionSafety.StillbornAccessNeverWorks | apps/api/src/middleware/auth.ts:42-52 | an access token minted too early is rejected over every later run |
| SessionSafety.SameSecondLoginIsDead | apps/api/src/lib/vibeAuth.ts:253-264 | a logout at 1500 ms and a login at 1900 ms give a pair that is not accepted |
| SessionSafety.CodeMintsOnce | apps/api/src/routes/auth.ts:167-181 | a hand-off code mints at most one session over any run; a replay is refused and changes nothing |
| SessionSafety.SidOwnership | apps/api/src/routes/auth.ts:249-259 | in every reachable state a sid belongs to one user and at most one unrevoked row carries it |
| SessionSafety.RotationKeepsSid | apps/api/src/routes/auth.ts:249-259 | a rotation revokes the row presented, its successor keeps user and sid, and the old token is refused from then on |
| SessionSafety.SweepIsCareful | apps/api/src/lib/vibeAuth.ts:132-192 | the sweep deletes no row with a live chain and none with a code that can still be exchanged |
| SessionSafety.AlwaysFindableExactly | apps/api/src/lib/vibeAuth.ts:170-192 | every refreshable session keeps its identity row over every run if and only if the refresh lifetime is at most the row's 30 days |
| Browser.StepKeeps | apps/web/src/lib/api.ts:61-75 | every step of any interleaving keeps the single-flight invariant |
| Browser.RefreshesNeverOverlap | apps/web/src/lib/api.ts:61-75 | at most one refresh is outstanding and nobody waits without one |
| Browser.NeverRefusedForRotation | apps/web/src/lib/api.ts:43-75 | a refresh on its way to the server never carries a token that was already used |
| Browser.AcceptedTokenNeverPresentedAgain | apps/web/src/lib/api.ts:43-75 | a token the server accepted is never presented again |
| Browser.ClearingPresentsOnce | apps/web/src/lib/api.ts:90-155 | api() and apiFetch() present every refresh token at most once, over every interleaving and whatever the server answers |
| Browser.PresentsOnceExactly | apps/web/src/lib/api.ts:90-155 | for a set of callers every refresh token is presented at most once over all runs if and only if authedFetch() is not among them |
| Browser.PresentedAtMostOnceExactly | apps/web/src/lib/api.ts:68-131 | in a run every token is presented at most once if and only if no refresh is handled that the client opened on a token it had kept after a denial, with keeping waiters only and no sign-in, sign-out or clear since |
| Browser.RefusedTokenIsPresentedAgain | apps/web/src/lib/api.ts:119-131 | two authedFetch requests in a row present a refused token twice |
| SuggestLaws.RuleMeaning | packages/shared/src/planning/suggest.ts:127-137 | a rule matches when every clause it has does, is excluded when one fails or it has none, and is to confirm otherwise |
| SuggestLaws.AllMeaning | packages/shared/src/planning/suggest.ts:207-211 | all is true when every member is, false when one is |
| SuggestLaws.AnyMeaning | packages/shared/src/planning/suggest.ts:213-217 | any is true when one member is, false when every one is |
| SuggestLaws.NotMeaning | packages/shared/src/planning/suggest.ts:203-205 | not swaps true and false and keeps unknown |
| SuggestLaws.ComparisonStatus | packages/shared/src/planning/suggest.ts:86-93 | a one-leaf rule on a number a with bound b is matched iff a > b, a >= b, a < b or a <= b for the four operators, else excluded; for profile fields and single facts |
| SuggestLaws.IncomparableStatus | packages/shared/src/planning/suggest.ts:86-93 | a comparison with anything but two numbers is excluded |
| SuggestLaws.EqualityStatus | packages/shared/src/planning/suggest.ts:80-96 | eq is equality of scalars, ne its complement, in equality with a member, exists neither null nor absent |
| SuggestLaws.AbsentFactStatus | packages/shared/src/planning/suggest.ts:224-226 | without a snapshot, or on a missing path, a facts leaf is to confirm whatever it tests |
| SuggestLaws.SelectorStatus | packages/shared/src/planning/suggest.ts:228-233 | behind a selector one satisfying element matches; otherwise missing elements leave it to confirm and a complete list excludes it |
| SuggestLaws.PlainPath | packages/shared/src/planning/suggest.ts:167-191 | a key reads what is recorded under it, and null or nothing there is a miss |
| SuggestLaws.DottedPath | packages/shared/src/planning/suggest.ts:167-198 | key.rest is rest inside the object under the key, anything else there is a miss |
| SuggestLaws.SelectorPath | packages/shared/src/planning/suggest.ts:169-188 | key[] reads the elements of an array, an empty one included |
| SuggestLaws.SelectorDottedPath | packages/shared/src/planning/suggest.ts:167-200 | key[].rest collects rest from every element and notes whether it was missing in any |
| SuggestLaws.WordingLaw | packages/shared/src/planning/suggest.ts:243-265 | the author's label wins; else field, test and value in words, with a prefix when negated |
| TaxLaws.DollarLaw | packages/engine/src/money.ts:7-9 | a dollar is 100 cents, to the nearest cent, and n cents more are n cents more |
| TaxLaws.WholeDollarLaw | packages/engine/src/money.ts:12-14 | whole-dollar rounding is to the nearest, ties away from zero, odd under sign change |
| TaxLaws.RateLaw | packages/engine/src/money.ts:17-20 | a rate is taken to the nearest cent, ties away from zero, odd under sign change |
| TaxLaws.MarginalRateLaw | packages/engine/src/modules/brackets.ts:13-19 | a cent is taxed at the rate of the first row whose ceiling in dollars lies above it |
| TaxLaws.TwoRowLaw | packages/engine/src/modules/brackets.ts:9-46 | with two rows: the first rate up to its ceiling, the second above, for any slice of income |
| TaxLaws.ReleaseLaw | packages/engine/src/modules/passive.ts:40-50 | an activity's positive income is taken out of its own prior suspension, as far as that goes |
| TaxLaws.LossLaw | packages/engine/src/modules/passive.ts:71-80 | losses add up activity by activity, and only active participation counts towards the allowance |
| TaxLaws.PhaseOutLaw | packages/engine/src/modules/passive.ts:68-69 | the allowance falls by 50 cents per dollar above the start, a half cent counting whole |
| TaxLaws.IncludedLaw | packages/engine/src/modules/passive.ts:53-76 | net income is included whole; of a net loss the least of itself, the active losses and the allowance |
| TaxLaws.ShareLaw | packages/engine/src/modules/passive.ts:86-89 | each share but the last is its loss's part, to the nearest cent |
| TaxLaws.AllocationLaw | packages/engine/src/modules/passive.ts:84-92 | each loss activity gets its own share on top of what it had left |
| TaxLaws.NettingLaw | packages/engine/src/modules/capital.ts:16-44 | which kind of gain or loss is left, and how much, in each combination of signs |
| TaxLaws.PhaseInLaw | packages/engine/src/modules/qbi.ts:27-31 | the ratio is 0 up to the threshold, 1 from the top of the range, linear between |
| TaxLaws.CountedLaw | packages/engine/src/modules/qbi.ts:43-55 | a service business's income and wages count in the part the ratio leaves |
| TaxLaws.WageLimitLaw | packages/engine/src/modules/qbi.ts:54-56 | the limit is half the wages that count, to the nearest cent |
| TaxLaws.TentativeLaw | packages/engine/src/modules/qbi.ts:37-47 | the tentative amount is the rate times the income that counts, and a loss counts at the same rate |
| TaxLaws.ShortfallTaken | packages/engine/src/modules/qbi.ts:57-58 | the shortfall below the limit is taken off in the proportion of the ratio |
| TaxLaws.CombinedLaw | packages/engine/src/modules/qbi.ts:33-59 | components and QBI add up over the businesses |
| TaxLaws.DeductionLaw | packages/engine/src/modules/qbi.ts:25-77 | combined amount, minimum deduction, floor and overall cap in each case |
| YearLaws.FicaLaw | packages/engine/src/compute-year.ts:52-64 | profit, for an S corporation after owner wages, less the entity's part of the employer half to the nearest cent |
| YearLaws.PtetLaw | packages/engine/src/compute-year.ts:69-76 | each pass-through gain bears its part of the PTET to the nearest cent, nobody else anything |
| YearLaws.PtetLossLaw | packages/engine/src/compute-year.ts:77-95 | in a loss year the first S corporation, else the first partnership, bears all of it |
| YearLaws.EmployerHalfLaw | packages/engine/src/modules/se-tax.ts:48-60 | the employer half is half the exact payroll tax on owner wages within a cent, social security only up to the remaining wage base |
| YearLaws.SeDeductionLaw | packages/engine/src/modules/se-tax.ts:14-27 | the deduction is half the exact self-employment tax on net earnings within a cent |
| YearLaws.YearFlows | packages/engine/src/compute-year.ts:47-102 | a year's flows come from both splits in order, and its self-employment deduction from those flows |
| YearLaws.RentalsEnterAgi | packages/engine/src/compute-year.ts:137-151 | AGI is AGI without rentals and passive carry plus what the passive rules include at that income |
| YearLaws.AgiLaw | packages/engine/src/compute-year.ts:117-151 | without rentals AGI is the sum of the income lines less the items above the line |
| YearLaws.CentsOfOtherIncome | packages/engine/src/compute-year.ts:122-128 | one more cent of other income is one more cent of AGI before rentals |
| YearLaws.CentsOfAdjustments | packages/engine/src/compute-year.ts:130-139 | one more cent of adjustments is one cent less |
| YearLaws.SaltLaw | packages/engine/src/modules/deductions.ts:21-31 | the cap is whole up to the threshold, reduced at the rate above it, never below the floor |
| YearLaws.TaxableLaw | packages/engine/src/compute-year.ts:154-209 | taxable income is AGI less the larger deduction, less the QBI deduction taken at that income, never below zero |
| YearLaws.TaxLineLaw | packages/engine/src/compute-year.ts:211-222 | what is preferential, what is ordinary, and which table taxes which slice |
| YearLaws.QbiListLaw | packages/engine/src/compute-year.ts:174-194 | which businesses count, with which wages, and whose QBI bears reductions |
| YearLaws.ReductionsTaken | packages/engine/src/compute-year.ts:172-188 | reductions come off eligible self-employed gains, in total, within half a cent a business |
| YearLaws.YearQbiList | packages/engine/src/compute-year.ts:172-200 | the deduction, health insurance and retirement come off first, then the reduction hook |
| YearLaws.HookLaw | packages/engine/src/compute-year.ts:195-200 | the hook takes its amount off the first largest component |
| YearLaws.CarryOutLaw | packages/engine/src/compute-year.ts:314-324 | exactly the positive suspensions are carried, in whole dollars, and so is the capital loss |
| ScenarioLaws.RunsInOrder | packages/engine/src/scenario.ts:72-82 | the years run on a permutation in ascending applyOrder, ids breaking ties lexicographically, so a transform works on what every smaller applyOrder made and on nothing a larger one made |
| ScenarioLaws.FirstYearOfTwo | packages/engine/src/scenario.ts:97-113 | of two transforms, handed over in either order, the later one receives what the earlier one made |
| ScenarioLaws.DeferralThenNol | packages/strategies/src/modules/tp12-modules.ts:645-742 | bracket management at 62 and NOL planning at 64 on $100,000: $50,000 deferred, then $40,000 deducted |
| ScenarioLaws.YearLoopLaw | packages/engine/src/scenario.ts:89-118 | each year computes on its transformed profile and on last year's carry, and hands its own on |
| ScenarioLaws.TransformLaw | packages/engine/src/scenario.ts:97-113 | a transform is given its own record only, its patch is merged there, its notes are appended with id and year |
| ScenarioLaws.GrowthCompounds | packages/engine/src/scenario.ts:90-91 | the growth factor compounds year by year |
| ScenarioLaws.GrowthOfLines | packages/engine/src/scenario.ts:49-68 | which income lines grow, each to the nearest dollar |
| ScenarioLaws.GrowthKeeps | packages/engine/src/scenario.ts:91-95 | which lines do not grow, and that projection years have no payments |
| ScenarioLaws.GrowthOfBusiness | packages/engine/src/scenario.ts:54-59 | results and wages of businesses grow, their nature does not |
| ScenarioLaws.GrowthOfRental | packages/engine/src/scenario.ts:60 | rents grow, id and participation do not |
| ScenarioLaws.InstallmentFirstYear | packages/strategies/src/factories/index.ts:221-235 | all but one tranche is deferred, as far as there is gain on hand |
| ScenarioLaws.InstallmentLaterYear | packages/strategies/src/factories/index.ts:236-243 | a later year brings one tranche back, or what is left |
| ScenarioLaws.BracketYear | packages/strategies/src/modules/tp12-modules.ts:646-667 | last year's move arrives and what was asked for leaves, as far as there is income to defer |
| ScenarioLaws.NolYearExactly | packages/strategies/src/modules/tp12-modules.ts:704-741 | the balance is deducted up to 80% of the income estimate, never a negative amount |
| ScenarioLaws.IncomeEstimateParts | packages/strategies/src/modules/tp12-modules.ts:717-726 | the estimate takes positive parts only, an S corporation's profit after owner wages |
| CanonicalLaws.CanonicalIsPlainInOrder | apps/api/src/lib/canonical-json.ts:17-21 | the text is plain printing of a value whose keys ascend at every depth, and that value is the same JSON value |
| Sorting.StringLessExactly | apps/api/src/lib/canonical-json.ts:20 | the key order is lexicographic by character |
| CanonicalLaws.TwoKeys | apps/api/src/lib/canonical-json.ts:17-21 | of two fields, enumerated in either order, the one with the smaller key is printed first |
| CanonicalLaws.UndefinedFieldDropped | apps/api/src/lib/canonical-json.ts:18-19 | a field that is undefined is not printed |
| CanonicalLaws.EscapeTable | apps/api/src/lib/canonical-json.ts:21 | how each character of a string is written |
| CanonicalLaws.ScalarTexts | apps/api/src/lib/canonical-json.ts:10-15 | the text of null, undefined, booleans, strings and empty containers |
| CanonicalLaws.NumberTexts | apps/api/src/lib/canonical-json.ts:12 | the text of an integer digit by digit |
| StreamLaws.MessageLaw | apps/api/src/lib/anthropic/chat.ts:126-134 | a message of the same role is joined to the last by a blank line, another role starts a new one |
| StreamLaws.UsageLaw | apps/api/src/lib/anthropic/chat.ts:259-312 | which counter each event feeds, and what it leaves alone |
| StreamLaws.ShownLaw | apps/api/src/lib/anthropic/chat.ts:257-322 | which events show, and as what |
| StreamLaws.PlainBlockShowsNothing | apps/api/src/lib/anthropic/chat.ts:278-280 | a block that was no tool call shows nothing at its stop |
| StreamLaws.LiveLaw | apps/api/src/lib/anthropic/chat.ts:304-318 | the stream ends with the first message stop |
| StreamLaws.AttemptLaw | apps/api/src/lib/anthropic/chat.ts:205-234 | tried again only after a retryable failure before anything showed, three attempts in all |
| StreamLaws.WireLaw | apps/api/src/routes/chats/messages.ts:342-356 | the text written for an event and for a heartbeat |
| StreamLaws.FrameLaw | apps/web/src/hooks/useChatStream.ts:215-221 | a frame is read line by line |
| StreamLaws.FieldLaw | apps/web/src/hooks/useChatStream.ts:218-221 | the event field names the event, data fields are put together, other lines are ignored |
| StreamLaws.ClosingLaw | apps/web/src/hooks/useChatStream.ts:131 | the closing events are done and error |
| SessionLaws.NamedSessionEnds | apps/api/src/lib/vibeAuth.ts:230-252 | a logout naming a sign-on's issuer and subject, provider session or user shuts its session out over every later run, told by the arguments of the sign-on |
| SessionLaws.NamedPersonSignedOut | apps/api/src/lib/vibeAuth.ts:253-264 | by subject or user it also kills every token and every chain the person then had |
| SessionLaws.OtherSessionStays | apps/api/src/lib/vibeAuth.ts:231-243 | a logout that differs in all three leaves the row alone, the same subject under another issuer included |
| SessionLaws.OtherPersonStays | apps/api/src/lib/vibeAuth.ts:244-264 | a user none of whose sessions is named keeps chains and tokens |
| SessionLaws.CodeLaw | apps/api/src/routes/auth.ts:167-192 | an unclaimed code mints exactly within 60 seconds for an active user, and what it mints carries sid and user |
| SessionLaws.SweepLaw | apps/api/src/lib/vibeAuth.ts:170-192 | a sign-on sweeps away exactly the older rows past an hour without a live refresh row |
| SessionLaws.AcceptLaw | apps/api/src/middleware/auth.ts:44-93 | when an access token is accepted, clause by clause |
| SessionLaws.RefreshLaw | apps/api/src/routes/auth.ts:212-247 | when a refresh mints, clause by clause |
| SessionLaws.MintLaw | apps/api/src/lib/sessions.ts:25-48 | a fresh row lives 30 days and the pair carries user, sid and the configured lifetimes |
| SessionLaws.PasswordChangeLaw | apps/api/src/routes/auth.ts:338-349 | a password change ends every other chain of the user, over every later run |
| SessionLaws.PasswordChangeSpares | apps/api/src/routes/auth.ts:338-349 | the chain handed in, other people's chains and access tokens stay |
| SessionLaws.PasswordResetLaw | apps/api/src/routes/auth.ts:497 | a reset ends every chain of the user and no other |
| SessionLaws.LogoutLaw | apps/api/src/routes/auth.ts:265-284 | a logout refuses the refresh token handed in over every later run, SSO or not |
| SessionLaws.LoginLaw | apps/api/src/routes/auth.ts:105-132 | a password login mints exactly for an active user, without a sid |
| BrowserLaws.UnauthorizedLaw | apps/web/src/lib/api.ts:68-75 | a first 401 joins the call in flight, makes one, or fails at once without a stored token |
| BrowserLaws.GrantedLaw | apps/web/src/lib/api.ts:52-55 | a granted refresh stores a live token and sends every waiter again |
| BrowserLaws.DeniedLaw | apps/web/src/lib/api.ts:100-155 | a denied one finishes every waiter and clears the store exactly when a clearing caller waits |

## Left out

- Profile fields: `resolveField` with its virtual aggregates is an arbitrary function from field names to values, so the results hold for any reader.
- Reason templates and their interpolation; the number a rule's value converts to and its rendering are parameters of a leaf.
- NaN, negative zero, object identity beyond "arrays and objects are never equal", and inherited properties such as `constructor` read through a path.
- Facts without a snapshot and facts with an empty one are kept apart as in the source; fact validation itself is not modelled.
- IEEE-754 behaviour: rates, growth factors and dollar inputs are exact reals.
- ComputeYear.ComputeYear: stops at income tax before credits and the carry out; credits, NIIT, state tax, SE-tax and payroll burden lines, payments, the whole-dollar result lines and the notes are not modelled because they read the modelled values without feeding back.
- ComputeYear.LandReduction: replaces a list element where the source updates the element object, which nothing else refers to.
- The lookup of tables by filing status; the model takes one status's tables.
- Qbi.ComputeQbiDeduction: one business's component is a function called by the loop, where the source accumulates it inside the loop body.
- Scenario.ComposeScenario: an absent carry patch is the empty patch, params and carry hold numbers only, and notes are records of strategy, year and text instead of one formatted string.
- Strategies other than installment sale, bracket management and NOL planning: single-branch adjustments without carry.
- The text of strategy notes, and the order of keys in carry records.
- CanonicalJsonProofs.CanonicalExactly: numbers are integers, characters are Unicode scalar values compared by code point (no surrogate halves), and functions, symbols, big integers and `toJSON` are not values.
- The SHA-256 digest over the canonical text.
- Sse.ParseSse: which data is valid JSON is a parameter, and the event carries the text that would be parsed; white space trimmed from event names is ASCII.
- Byte decoding, user-interface state, abort and the error text of the chat client.
- Chat.ChatStream.StreamChat: what the SDK does between events, backoff delays, logging, the parse of a tool's input text, stop reasons, and a failure while fetching the final message are not modelled; whether a failure is retryable is part of the attempt.
- Cache breakpoints and the request body of the chat call.
- Express, SQL, cookies, rate limits, mail and audit rows; only the row-level effect of a handler is modelled.
- Cryptography: a token is valid exactly when it was minted, random ids never repeat, and a code's row is the one it was drawn for.
- AuthServer.Server.PostChangePassword: the current password is taken to be right; a wrong one changes nothing.
- Overlap of two handlers inside one request, lost responses and clock differences: one handler is one step and the clock never goes back.
- Revocations that the authentication package makes by itself, password policy, user provisioning and account deletion beyond the active flag.
- The branch of the middleware that answers 503 when the revocation list cannot be read.
- Browser.StepKeeps: one tab, every answer delivered or failed, and a working store; other tabs and storage failures are not modelled. The continuations of one settled refresh run together, in the microtask checkpoint of that settlement.
- Backup, setup, rendering, and the user interface.
