# Bowery agent: a verified model

A Dafny model of the decision and propagation logic of the bowery agent, a host monitor that shares what it learns with pinned
peers over a mesh. Each module follows one component of `crates/bowery-agent/src`. State that the agent updates in place is a
class whose methods are proved equal to functions on plain values; everything that only makes sense over time is proved about
every run of those functions. Scores and token counts are reals, clocks are integers passed in, signatures are ideal.

`dafny verify dfyconfig.toml` checks the whole project.

| file | component |
|---|---|
| `Authorisation.dfy` | whom an agent takes an operator command to come from |
| `MeshPush.dfy` | what every push that floods the mesh has in common: revocations, silences, YARA rules |
| `RevocationFlood.dfy`, `SilenceFlood.dfy`, `YaraFlood.dfy` | the three floods on agents with their stores; a re-issued silence spreads like a new one |
| `QueryDispatch.dfy`, `Fanout.dfy` | who may run an operator query, where it runs, how the answer is framed |
| `Corroboration.dfy`, `HeldActions.dfy` | a whisper round from responder scan to verdict, and the actions held for it |
| `Inbox.dfy`, `AlertView.dfy`, `Chunking.dfy` | the alert ring, its collapsed view, paging and wire chunks |
| `SilenceStore.dfy`, `SilenceRuns.dfy`, `SilenceReissues.dfy` | signed silences, their three indexes and their file; whole runs of a store; re-issues |
| `RateLimit.dfy`, `RecentlySeen.dfy`, `ProcTable.dfy`, `PeerLiveness.dfy`, `DetectionStats.dfy`, `EventLog.dfy` | bounded stores and meters against history specifications |
| `Basics.dfy` | options and duplicate-free sequences |

## What the code does not promise after all

Each of these reads like a guarantee and is false of the code; the model keeps the code as it is, proves a failing run, and
proves when the property does hold.

- Everyone within `ttl` hops gets a revocation: false, because a copy with a spent budget can arrive first
  (`RevocationFlood.DeliveryOrderDefeatsTheHopCount`). Coverage holds for every delivery order when the clamped budget is at least
  the number of agents less one (`RevocationFlood.EveryRoutedAgentHoldsIt`), and with less there is a fleet of that size where it
  never does (`RevocationFlood.TooFewHopsMissTheEnd`). The clamp is 8, so nothing is guaranteed beyond nine agents.
- A revocation reaches every agent that trusts its signer: false, because every hop asks for trust in the operator that
  authorised the push, and for an authorisation no older than five minutes (`RevocationFlood.MixedTrustStopsTheFlood`,
  `RevocationFlood.UntrustedAuthoriserNeverArrives`). And an agent that fails to write the revocation, or to report it to whoever
  pushed it, keeps it, never relays it, and answers later copies as already known (`RevocationFlood.UnreportedTakerEndsTheFlood`,
  `RevocationFlood.RevocationFloodIsSafe`): routes through it are lost.
- A revoked peer does not stay trusted, as a comment at `bowery-whisper/src/known_neighbors.rs:198-199` says: it stays pinned when
  the one push that brought the revocation could not be written (`RevocationFlood.FailedWriteKeepsThePin`), until another push for
  it is accepted or the gossip task comes across it, and only then (`RevocationFlood.RevokedStaysPinnedExactlyWhen`).
- A quorum is one of distinct peers: false, because the mesh lists a peer once per incarnation and a round asks and counts every
  entry; one honest host fills a quorum of two (`Corroboration.OnePeerFillsAQuorumOfTwo`). The counted positions are as many
  distinct peers exactly when no peer stands at two of them (`Corroboration.WitnessesAreTheUnseen`).
- A fan-out queries each pinned peer once, and a revocation is relayed over each pin edge once: only when no peer is listed twice
  (`QueryDispatch.DuplicateListingRunsTwice`, `QueryDispatch.AmplificationIsBounded`,
  `RevocationFlood.DuplicateListingRelaysTwice`, `RevocationFlood.RevocationFloodIsSafe`).
- No reply but the last has an empty fingerprint, as a comment at `operator.rs:878-880` says: only when no peer sends one, since the
  relay does not check (`Fanout.TerminatorIsUniqueExactlyWhen`).
- A silence revoked by a newer re-issue stays revoked: only while the re-issue is held. Once it has expired a restart drops it, as
  would a sweep, which the agent never runs, and a late copy of the old silence that has not expired is accepted again
  (`SilenceRuns.ExpiredRevocationCanBeUndone`).
- Agents sent the same silences have the same ones in force: exactly when all their ids fit, no issue of an id outlives its latest
  issues, and those say the same, or nothing is left in force anyway
  (`SilenceReissues.DeliveryOrderDoesNotMatterExactlyWhen`, with failing runs in `SilenceReissues.OutlivedOrderMatters`,
  `SilenceReissues.CrowdedOrderMatters` and `SilenceReissues.TiedOrderMatters`).
- A silence survives a restart: not when the file could not be rewritten for it (`SilenceRuns.FailedRewriteIsForgotten`), unless by
  then it has expired and so has the one it replaced (`SilenceRuns.FailedRewriteIsForgottenExactlyWhen`); from the next successful
  rewrite on it does (`SilenceRuns.RestartKeepsExactlyTheLive`).
- Nothing held is silently forgotten, as a comment at `agent.rs:2549-2551` says: it is when parking meets a full store, when a
  confirmed round meets an episode past its TTL, when a release meets a full or closed channel, and when the release loop stops
  with something queued or held, or something is parked after that (`HeldActions.EachLossHappens`), and only then
  (`HeldActions.NothingIsForgottenExactlyWhen`).
- A model verdict is applied once: an empty explanation does not mark the alert, and each further one lowers the score again
  (`Inbox.UnmarkedVerdictsBreakTheFloor`).
- Paging delivers everything: exactly when timestamps strictly increase (`Inbox.PagingIsCompleteExactlyWhenIncreasing`). A
  timestamp at the maximum is delivered again and again (`Inbox.SaturatedCursorRepeats`).
- The bounded process table under-approximates the full one: true of its direct answers, false of the parent lookup, because
  the exec map can be cleared while the fork map is kept (`ProcTables.ForgottenParentIsMisnamed`). The lookup goes wrong exactly
  when the parent's own latest exec could answer and a clear came since (`ProcTables.ParentIsRightExactlyWhen`).

One comment is simply out of date: a relay does not rewrite the fingerprint on peers' chunks, as `operator.rs:757-763` says, but
forwards them verbatim, and the model follows the code.

## Model

Paths are relative to the repository root.

| member | source | states |
|---|---|---|
| `Authorisation.AdmitsExactlyWhen` | crates/bowery-agent/src/operator.rs:1467-1539 | a push passes the dispatcher exactly when a configured operator sent it bare, or it carries a well-formed authorisation for this request and body, signed by a configured operator at most five minutes away, whoever sends it |
| `Authorisation.DeniedForAReason` | crates/bowery-agent/src/operator.rs:1467-1539 | a denial names a fault the authorisation has |
| `MeshPush.FloodAlwaysEnds` | crates/bowery-agent/src/operator.rs:1085-1100 | no run of push deliveries is longer than a weight fixed at its start, whatever clamp each agent applies and whatever stores and seen-sets answer: the hop budget alone ends every flood |
| `MeshPush.DeliveryShrinks` | crates/bowery-agent/src/operator.rs:1156-1162 | one delivery, with any number of relayed copies up to the peer count and any budgets below the clamp, strictly lowers that weight |
| `MeshPush.AnyPushIsADelivery` | crates/bowery-agent/src/operator.rs:1085-1162 | a revocation, silence or YARA push handled by any agent, with its own clamp and under any answer of its store, is such a delivery |
| `MeshPush.TargetsAre` | crates/bowery-agent/src/operator.rs:1139-1147 | relay targets are exactly the gossiped pinned peers other than the agent, none twice unless it is listed twice |
| `MeshPush.TargetsCount` | crates/bowery-agent/src/operator.rs:1139-1147 | a pinned peer is a target as often as it is listed |
| `RevocationFlood.PushAgent.Insert` | crates/bowery-whisper/src/mesh_trust.rs:292-348 | insert-if-absent; a failed write leaves the record in memory |
| `RevocationFlood.PushAgent.HandleRevokePush` | crates/bowery-agent/src/operator.rs:1673-1769 | under every answer of clock, rate limiter, disks and connection: accepted exactly when the push passes every gate and its key is known or was written; then, and only then, the target is unpinned, which is reported as an eviction when it was pinned and the pin file was written; the key is held from then on either way; and relayed copies as the network steps use them |
| `RevocationFlood.PushAgent.EvictRevoked` | crates/bowery-agent/src/agent.rs:1530-1546 | one round of the gossip task unpins exactly the listed peers whose revocation is held |
| `RevocationFlood.HandleMeans` | crates/bowery-agent/src/operator.rs:1690-1730 | the same of the network step: acceptance, known, evicted, pins and store in terms of the store and pins before |
| `RevocationFlood.HandleKeeps` | crates/bowery-agent/src/operator.rs:1690-1752 | a handled push only adds its own key, only when it is admitted and verifies, never restores a pin, and relays only when the key was new, written and reported, to pinned peers other than the agent and the revoked one, with one hop less and the same authorisation |
| `RevocationFlood.RevocationFloodIsSafe` | crates/bowery-agent/src/operator.rs:1673-1838 | in every run in which anybody sends anything: each held revocation was signed by an operator its holder trusts and brought under an authorisation its holder trusts, or bare by such an operator or by a relaying agent that is one; a key is relayed to a peer at most as often as the peer is listed, so once and over no more than the pin edges when nobody is listed twice; no revocation is relayed to its target; and an agent that could not write or report a key holds it and never relays it |
| `RevocationFlood.HeldExactlyWhen` | crates/bowery-agent/src/operator.rs:1690-1730 | in every run an agent holds a key exactly when some push for it passed there, written or not |
| `RevocationFlood.PinnedExactlyWhen` | crates/bowery-agent/src/agent.rs:1530-1546 | in every run an agent still pins a peer exactly when it did at the start, no accepted push revoked it there, and the gossip task did not come across it while its revocation was held |
| `RevocationFlood.RevokedStaysPinnedExactlyWhen` | crates/bowery-agent/src/operator.rs:1706-1722 | in every run an agent that holds a revocation still pins the revoked peer exactly when it did at the start, a single push for it ever passed, that one could not be written, and the gossip task has not come across the peer since |
| `RevocationFlood.FailedWriteKeepsThePin` | crates/bowery-agent/src/operator.rs:1706-1708 | a run in which a revocation is held and its target still pinned |
| `RevocationFlood.LogsAreExact` | crates/bowery-agent/src/operator.rs:1700-1752 | the logs that coverage refers to: whom the rate limiter cost a key, and who took it but could not write or report it, each exactly when a step did that |
| `RevocationFlood.DuplicateListingRelaysTwice` | crates/bowery-mesh/src/lib.rs:263-305 | for every listing that names a peer twice a run in which a revocation is relayed to it twice over one pin edge |
| `RevocationFlood.UntrustedAuthoriserNeverArrives` | crates/bowery-agent/src/operator.rs:1496-1500 | an agent that trusts none of the authorisers of the pushes sent for a key never holds it, in any run |
| `RevocationFlood.MixedTrustStopsTheFlood` | crates/bowery-agent/src/operator.rs:1496-1500 | two agents that both verify a revocation, with a pinned edge between them, and no run brings it to the second |
| `RevocationFlood.UnreportedTakerEndsTheFlood` | crates/bowery-agent/src/operator.rs:1733-1752 | a run in which the first agent takes the revocation, cannot report it, and the flood is over with its pinned neighbour left out |
| `RevocationFlood.RevocationDeliveryIsDelivery` | crates/bowery-agent/src/operator.rs:541-546 | delivering a revocation is an instance of the generic delivery |
| `RevocationFlood.RevocationFloodEnds` | crates/bowery-agent/src/operator.rs:1733-1800 | in every history a stretch of deliveries is no longer than the weight of what was in flight when it began |
| `RevocationFlood.EveryRoutedAgentHoldsIt` | crates/bowery-agent/src/operator.rs:1673-1838 | with a clamped budget of at least (agents - 1) and deliveries within the authorisation window, in any order, whatever else is sent and while other revocations shrink the pins: once the flood is over every agent with a route from an entry holds the revocation, a route running over live pins through agents that verify it, trust its authorisers, could write and report it and were not rate limited |
| `RevocationFlood.TooFewHopsMissTheEnd` | crates/bowery-agent/src/agent.rs:1630 | with a smaller clamped budget the last agent of a line of that size never gets it, in every run |
| `RevocationFlood.DeliveryOrderDefeatsTheHopCount` | crates/bowery-agent/src/operator.rs:1733-1752 | four agents and a delivery order for which an agent two hops from the entry is missed by a push of budget two |
| `SilenceFlood.HandleSilencePush` | crates/bowery-agent/src/operator.rs:1571-1656 | on a real store: refused, or accepted and reported, and passed on with one hop less exactly when the store changed and the report got through |
| `SilenceFlood.HandleMeans` | crates/bowery-agent/src/operator.rs:1571-1656 | accepted exactly when the push passes every gate, its record is sound and unexpired and known or there is room; known already exactly when nothing changed; held is then the record unless what was held was issued later; copies with one hop less to every listed pinned peer exactly when it changed something, was reported and asks for it |
| `SilenceFlood.NewestIsKept` | crates/bowery-agent/src/operator.rs:1596-1628 | no delivery displaces the newest judgement of an id; a store takes it up when it verifies and fits, which is a change, and a second copy is not |
| `SilenceFlood.NewestJudgementReachesEveryone` | crates/bowery-agent/src/operator.rs:1571-1670 | in every run of deliveries and sweeps in which anybody sends anything, over stores that may all hold older judgements of the id: with budget (agents - 1) and deliveries within the authorisation window, once no live copy is in flight every agent with a route from an entry holds the newest judgement, and nobody relayed it twice |
| `SilenceFlood.TurnedAwayAndStranded` | crates/bowery-agent/src/operator.rs:1571-1670 | the logs coverage refers to: who was turned away for want of budget or room, and who could not report a change, each exactly when a step did that |
| `SilenceFlood.SilenceDeliveryIsDelivery` | crates/bowery-agent/src/operator.rs:1896-1961 | delivering a silence is an instance of the generic delivery |
| `SilenceFlood.SilenceFloodEnds` | crates/bowery-agent/src/operator.rs:1896-1961 | while nothing is injected there are no more deliveries than the weight of what was in flight |
| `YaraFlood.HandleYaraPush` | crates/bowery-agent/src/operator.rs:925-1100 | the seen-set is asked first; copies go out, one per target and with the lower of the budget and the agent's own ceiling less one, exactly for a push it calls new, whose rule was accepted, that asks for it at an agent that relays |
| `YaraFlood.OnePassPerWindow` | crates/bowery-agent/src/operator.rs:925-1100 | while its seen-set is roomy an agent passes one request of one operator on only when the window has passed since every earlier arrival of it |
| `YaraFlood.YaraDeliveryIsDelivery` | crates/bowery-agent/src/operator.rs:1085-1162 | whatever the seen-set answers a YARA delivery is an instance of the generic one, so the flood ends |
| `QueryDispatch.RunsExactlyWhenAuthorised` | crates/bowery-agent/src/operator.rs:180-205 | a query runs exactly when a configured operator sent it directly, or signed this request and this text within five minutes, and it asks for no second hop, is within the fan-out budget and there is an engine; and fans out exactly when it asks for that and the agent relays |
| `QueryDispatch.TurnedAwayForAReason` | crates/bowery-agent/src/operator.rs:180-205 | a command is ignored exactly when no configured operator sent it and it carries nothing; every other refusal names something true of it |
| `QueryDispatch.NormalFormExactlyWhen` | crates/bowery-whisper/src/forwarding.rs:119-163 | two commands have one normal form exactly when they say the same apart from the dispatch fields; what a relay sends on says the same with a hop less |
| `QueryDispatch.FanOutAsksEveryone` | crates/bowery-agent/src/operator.rs:1216-1326 | a fan-out that succeeds locally sends the same text and authorisation, without a further hop, once per listing to every listed peer that is pinned and the filter lets through |
| `QueryDispatch.ForwardingKeepsTheAuthorisation` | crates/bowery-whisper/src/forwarding.rs:119-163 | under one authorisation exactly the bodies with the signed normal form resolve, and the form a relay sends on passes wherever the original did, for the same operator |
| `QueryDispatch.FanoutIsOneHop` | crates/bowery-agent/src/operator.rs:480-498 | in every run of honest agents, whatever outsiders inject, a query runs only at its entry agent and for entries of its peer list that it pins and the filter lets through, at most once per entry, with the injected text, for an operator configured there that sent it bare or signed this text for this request |
| `QueryDispatch.AmplificationIsBounded` | crates/bowery-agent/src/operator.rs:1216-1326 | one injected command causes at most one query more than its entry agent dialled list entries; when none was listed twice, at most one at each agent and at most one more than the pins |
| `QueryDispatch.DuplicateListingRunsTwice` | crates/bowery-mesh/src/lib.rs:263-305 | for every list that names a pinned peer twice a run in which one query runs there twice |
| `QueryDispatch.RunIsAccounted` | crates/bowery-agent/src/operator.rs:1361-1370 | a relayed command never fans out again, and what it runs is what its entry command asked for |
| `Fanout.StreamRows` | crates/bowery-agent/src/operator.rs:807-852 | an agent's chunks concatenate to its rows, with columns on the first only, `end` on the last only, 256 rows in every chunk but the last, and one empty closing chunk for no rows |
| `Fanout.FramingIsUnique` | crates/bowery-agent/src/operator.rs:822-852 | that framing is determined by the agent and its rows |
| `Fanout.RunPeerQuery` | crates/bowery-agent/src/operator.rs:1343-1459 | a peer's leg is what the peer itself sent up to its close or the first break, and closes exactly once, at its end; it closes with a failure exactly when the dial failed or no usable closing reply came before a break |
| `Fanout.StreamSqlResponse` | crates/bowery-agent/src/operator.rs:764-897 | a failed query is one error and nothing else; otherwise the answer is the framed rows, the forwarded arrivals and the terminator |
| `Fanout.FanoutStreamIsWellFramed` | crates/bowery-agent/src/operator.rs:1290-1320 | for every interleaving of the tasks' legs: own rows whole; what speaks for a peer is what it sent, in order, and closes as often as the peer is listed; for a peer listed once it is one leg that closes exactly once, at its end; nothing speaks for anyone else; and the empty-fingerprint chunk is there exactly for a fan-out, once, last |
| `Fanout.TerminatorIsUniqueExactlyWhen` | crates/bowery-agent/src/operator.rs:870-896 | with peers that may lie: the terminator is the only reply with an empty fingerprint exactly when no peer sent one |
| `Fanout.LegCarriesThePeersRows` | crates/bowery-agent/src/operator.rs:1300-1316 | a peer that framed its rows is heard in full unless its leg failed, and then up to the failure with a relay-signed closing chunk |
| `Corroboration.LocalKnowledge` | crates/bowery-agent/src/whisper_qa.rs:298-359 | one scan answers insufficient exactly when there is no hit and too few binaries or too young a baseline; otherwise the saturating total and the earliest and latest sighting among the hits |
| `Corroboration.LookUpProgram` | crates/bowery-agent/src/whisper_qa.rs:242-278 | the program half of that answer |
| `Corroboration.RespondToQuestion` | crates/bowery-agent/src/operator.rs:329-395 | the honest answer, or none for a malformed or expired question; on the program, the package matches when a build of it was run or it is installed, with the number of builds run up to 64, the path when something was run there or a package owns it, and empty names ask nothing |
| `Corroboration.ReadReplies` | crates/bowery-agent/src/whisper_qa.rs:649-748 | every asked peer is classified once, in order; the totals are the peers that saw it and the saturating sum of what they saw |
| `Corroboration.QuorumVerdict` | crates/bowery-agent/src/whisper_qa.rs:798-837 | the counts are the sizes of disjoint position sets that add up to the peers asked, and it confirms exactly when the quorum is positive and met by unseen peers |
| `Corroboration.EveryRecordWasSeen` | crates/bowery-baseline/src/lib.rs:363-397 | in every baseline the upserts can build each record has a positive count and starts with an observation of its binary |
| `Corroboration.BaselineIsHistory` | crates/bowery-baseline/src/lib.rs:363-397 | after any observations the baseline has one record per binary that was run, with its first and last run and the number of its runs |
| `Corroboration.TotalIsTheRuns` | crates/bowery-baseline/src/lib.rs:363-397 | what a host reports as seen of a fingerprint is how often it ran something with it |
| `Corroboration.CountedMeansStanding` | crates/bowery-agent/src/whisper_qa.rs:661-735 | an honest answer counts as unseen exactly when the responder has standing, in its own fields: same non-empty platform, no hit, no build of the package run and the package not installed, nothing run at the path and the path not owned, enough binaries, old enough |
| `Corroboration.CountedAsItShould` | crates/bowery-agent/src/whisper_qa.rs:661-735 | every honest answer is counted exactly as what the host is: seen, declined, familiar, incomparable or unseen; a familiar one says by package with the builds run, or by path only |
| `Corroboration.StandingMeans` | crates/bowery-agent/src/whisper_qa.rs:298-359 | a host with standing never observed the binary, and with a positive age bar observed something at least that long ago |
| `Corroboration.WitnessesAreTheUnseen` | crates/bowery-agent/src/whisper_qa.rs:649-748 | the positions counted unseen are those with standing, and they are as many distinct peers exactly when no peer stands at two of them |
| `Corroboration.RunRound` | crates/bowery-agent/src/whisper_qa.rs:453-776 | a round confirms exactly when the quorum is positive and at least that many positions, whose answers arrived, have standing; they are that many distinct peers when no peer stands at two; and each of the six counts is the number of positions whose host is to be counted so |
| `Corroboration.OnePeerFillsAQuorumOfTwo` | crates/bowery-mesh/src/lib.rs:263-305 | a round of two positions with standing, a quorum of two, and one peer |
| `Corroboration.RecognisedFraction` | crates/bowery-agent/src/whisper_qa.rs:917-921 | the damping fraction is between 0 and 1, and positive exactly when some peer recognised the program |
| `Corroboration.ExplainedSuspicion` | crates/bowery-agent/src/whisper_qa.rs:917-921 | damping never raises a score, never takes off more than 60 percent, and changes it exactly when some peer recognised the program |
| `Corroboration.DampIsProportional` | crates/bowery-agent/src/whisper_qa.rs:917-921 | exactly three fifths of the recognised fraction of the score go |
| `HeldActions.PendingActions.ParkAll` | crates/bowery-agent/src/pending_actions.rs:132-158 | actions join their episode, the oldest episode makes room at capacity, the first parking time stays |
| `HeldActions.PendingActions.ReleaseAll` | crates/bowery-agent/src/pending_actions.rs:165-176 | the episode's actions, or none when it is unknown or stale; the episode is gone either way |
| `HeldActions.PendingActions.DiscardAll` | crates/bowery-agent/src/pending_actions.rs:179-187 | the episode's actions, and the episode is gone |
| `HeldActions.PendingActions.TakeExpired` | crates/bowery-agent/src/pending_actions.rs:195-208 | exactly the stale episodes leave, each once |
| `HeldActions.EveryParkingIsAccountedForOnce` | crates/bowery-agent/src/agent.rs:2305-2376 | in every run each parked occurrence is in exactly one of held, outbox, channel, executed or reported, evicted, stale, refused, abandoned; nothing is anywhere that was not parked |
| `HeldActions.ExecutionIsCorroboratedTimelyAndOnce` | crates/bowery-agent/src/whisper_qa.rs:1039-1068 | in every run an executed action was parked, was released by a confirmed round of its episode at most TTL after its parking, and was executed once |
| `HeldActions.ReleasedExactlyWhen` | crates/bowery-agent/src/whisper_qa.rs:1039-1068 | in every run the releases on their way, carried out or lost are exactly those some step had reason for: to be executed when the round confirmed within the TTL, not comparable when it did not and nobody but incomparable peers had an opinion, not corroborated for the other rounds that did not, expired from a sweep |
| `HeldActions.OutcomeIsTheRounds` | crates/bowery-agent/src/whisper_qa.rs:1039-1068 | whatever waits when its round ends, or when a sweep finds it stale, has exactly one outcome from then on in every run: gone as stale when the round confirmed too late, or one release with the reason of that step |
| `HeldActions.DoneHasItsReason` | crates/bowery-agent/src/agent.rs:2305-2376 | everything executed or reported left the store at exactly one step, which had the reason it carries; so it executes exactly when that was a round that confirmed within the TTL |
| `HeldActions.ReportHasGrounds` | crates/bowery-agent/src/whisper_qa.rs:989-1068 | with honest rounds a report that an action was dropped by its round means fewer than the quorum had standing, and says not comparable exactly when somebody was on another platform and nobody had standing, had seen it or knew the program |
| `HeldActions.ConfirmedActionExecutes` | crates/bowery-agent/src/whisper_qa.rs:1041-1042 | a run in which a confirmed action executes, for every action and configuration with a channel |
| `HeldActions.StaleExactlyWhen` | crates/bowery-agent/src/pending_actions.rs:165-176 | in every run what went stale is exactly what waited when its round confirmed past the TTL |
| `HeldActions.EvictedExactlyWhen` | crates/bowery-agent/src/pending_actions.rs:132-158 | in every run what was evicted is exactly what made room in a full store, nobody in it waiting since before |
| `HeldActions.HeldSinceItsFirst` | crates/bowery-agent/src/pending_actions.rs:132-158 | in every run an episode is held since its first waiting action was parked |
| `HeldActions.ConfirmedMeansARound` | crates/bowery-agent/src/whisper_qa.rs:1039-1068 | a logged confirmation was made by a finished round of that episode at that time |
| `HeldActions.ExecutionHasWitnesses` | crates/bowery-agent/src/whisper_qa.rs:989-1121 | end to end: behind every executed action there is an honest round with at least `quorum` > 0 positions with standing, and as many distinct peers when no peer stood at two positions |
| `HeldActions.NothingIsForgottenExactlyWhen` | crates/bowery-agent/src/pending_actions.rs:132-176 | in every run each unreported ledger is clean exactly when no step of its kind occurred: parking into a full store, confirming an episode past its TTL, offering to a full or closed channel, stopping the release loop over something queued or held or parking after that |
| `HeldActions.EachLossHappens` | crates/bowery-agent/src/agent.rs:2305-2316 | for every store and channel size a run for each of the four losses |
| `HeldActions.ForgottenExactlyWhenUnreported` | crates/bowery-agent/src/agent.rs:2305-2376 | what is in a loss ledger was never executed or reported; anything else parked was, or is on its way to a running loop, or is about to be offered |
| `HeldActions.FullChannelRefuses` | crates/bowery-agent/src/whisper_qa.rs:1039-1068 | for every channel size a run that loses a release to a full channel while the loop runs |
| `HeldActions.QueuedReleaseIsAbandoned` | crates/bowery-agent/src/agent.rs:2312-2316 | a release queued when the loop stops is executed by nobody and reported by nobody |
| `Inbox.AlertInbox.Append` | crates/bowery-agent/src/inbox.rs:216-246 | the alert joins the end of the ring, which drops exactly its head at capacity, with the score the silence left it, the latest verdict of its episode in the ring when it has none, and lowered once when that verdict is one of recognition and the rule is not a tamper rule; or it is suppressed, exactly below the threshold, and nothing changes |
| `Inbox.AlertInbox.ApplyModelVerdict` | crates/bowery-agent/src/inbox.rs:278-334 | every unexplained alert of the episode keeps its score when the verdict's is no lower, and otherwise gets that score or 0.4 of its own, whichever is higher; it takes the first 300 characters of the explanation and a non-empty backend; all others stay, and the number reached is right |
| `Inbox.AlertInbox.ReadSince` | crates/bowery-agent/src/inbox.rs:389-430 | expired head swept; the first `cap` alerts at or after `since` in order; the cursor one past the latest of them |
| `Inbox.AlertInbox.SweepHead` | crates/bowery-agent/src/inbox.rs:389-403 | exactly the head up to the first unexpired alert is gone |
| `Inbox.PageIsTheFirst` | crates/bowery-agent/src/inbox.rs:404-430 | a page is the first so many matching alerts, position by position: it leaves one out only when it is full, and then a later one |
| `Inbox.ReadPage` | crates/bowery-agent/src/inbox.rs:404-430 | the scan of that read |
| `Inbox.VerdictsStickAlways` | crates/bowery-agent/src/inbox.rs:134-246 | in every reachable inbox a confirmed alert is followed only by confirmed alerts of its episode, the ring is a suffix of what was stored up to damping, and stays within capacity |
| `Inbox.ScoreFloor` | crates/bowery-agent/src/inbox.rs:278-334 | any sequence of recognition damping and model verdicts never raises a score and never takes it below 0.4 per damping that can still happen and one more per empty explanation |
| `Inbox.EveryScoreKeepsItsFloor` | crates/bowery-agent/src/inbox.rs:87-334 | every alert of every reachable ring has evolved by such a sequence from the score the silences left it with, so keeps that floor; with non-empty explanations it is 0.16 of that score, 0.4 for tamper rules |
| `Inbox.UnmarkedVerdictsBreakTheFloor` | crates/bowery-agent/src/inbox.rs:278-334 | a run in which `n` empty explanations take a score to exactly 0.4 to the power `n + 2`; the floor is broken exactly when n > 0 |
| `Inbox.DampsAlike` | crates/bowery-agent/src/inbox.rs:103-106 | the fraction the inbox computes lowers a score exactly as the one the round computes |
| `Inbox.AnnouncedIsStored` | crates/bowery-agent/src/whisper_qa.rs:917-987 | without a silence the score a round announces is the one the inbox stores exactly when the rule is not a tamper rule |
| `Inbox.NeverDeliveredTwice` | crates/bowery-agent/src/inbox.rs:389-430 | across reads of changing rings that reuse the cursor, a later page holds only later timestamps |
| `Inbox.SaturatedCursorRepeats` | crates/bowery-agent/src/inbox.rs:420-430 | an alert at the maximal timestamp is delivered again |
| `Inbox.PagingIsCompleteExactlyWhenIncreasing` | crates/bowery-agent/src/inbox.rs:389-430 | draining a quiet ring ends and delivers every matching alert once, in order, for every page size, if and only if the timestamps strictly increase |
| `AlertView.CollapseSuperseded` | crates/bowery-agent/src/sql_tables.rs:505-517 | one row per non-blank episode at its first position with its last content; blank episodes untouched |
| `AlertView.RowsAre` | crates/bowery-agent/src/sql_tables.rs:505-517 | position by position: a row for each alert without an episode and for each episode, in order of first appearance, each showing its last alert |
| `AlertView.CollapseIsIdempotent` | crates/bowery-agent/src/sql_tables.rs:505-517 | collapsing again changes nothing |
| `AlertView.RowShowsTheVerdict` | crates/bowery-agent/src/sql_tables.rs:505-517 | in every reachable inbox a row carries a confirmation exactly when some ring alert of its episode does |
| `Chunking.ChunkAlerts` | crates/bowery-agent/src/agent.rs:1794-1810 | a contiguous split into batches that fit or are single, and no such split has fewer batches; one empty batch for no alerts |
| `Chunking.GreedyIsOptimal` | crates/bowery-agent/src/agent.rs:1794-1810 | a greedy split stays ahead of every other from any starting point |
| `Chunking.RespondToSubscribe` | crates/bowery-agent/src/agent.rs:1740-1782 | exactly the last frame carries `end` and the cursor, and a reader that stops there has the page and the cursor whatever follows |
| `RateLimiting.RateLimit.TryAcquire` | crates/bowery-agent/src/agent.rs:1702-1718 | refill to the burst, then spend one or refuse; other keys untouched |
| `RateLimiting.GrantsAreBounded` | crates/bowery-agent/src/agent.rs:1674-1718 | over any stretch of any run a key gets at most burst + rate * time grants, and tokens stay within 0 and burst |
| `RateLimiting.RefusedExactlyWhen` | crates/bowery-agent/src/agent.rs:1702-1718 | in every run a call is refused exactly when granting it would let through more than burst + rate * elapsed since some call of its key |
| `RateLimiting.PatientCallerIsNeverRefused` | crates/bowery-agent/src/agent.rs:1674-1718 | a caller that keeps 1/rate between calls is granted every time, whatever the other keys do |
| `Seen.RecentlySeen.CheckAndRecord` | crates/bowery-agent/src/seen.rs:50-74 | prune, perhaps evict an oldest entry, refresh, and answer whether the key was absent |
| `Seen.NeverMoreThanTheCap` | crates/bowery-agent/src/seen.rs:50-74 | in every run the map holds at most max(1, cap) keys |
| `Seen.RepeatsAreGenuine` | crates/bowery-agent/src/seen.rs:50-74 | in every run, evictions or not, a repeat is reported only for a key called less than ttl ago |
| `Seen.ExactWhileRoomy` | crates/bowery-agent/src/seen.rs:50-74 | while the fresh keys stay below the cap the answer is "new" exactly when no such call occurred |
| `Seen.NewAnswersAreSpaced` | crates/bowery-agent/src/seen.rs:50-74 | while the fresh keys stay below the cap a "new" answer comes at least the ttl after every earlier call with its key |
| `Seen.ForgottenOnlyWhenCrowded` | crates/bowery-agent/src/seen.rs:50-74 | in every run a repeat within the ttl is taken for new only when as many distinct keys as the map may hold were called since |
| `ProcTables.ProcTable.Record` | crates/bowery-agent/src/proc_table.rs:131-162 | a full exec map is cleared before a new pid; the previous exec is kept beside the new one |
| `ProcTables.ProcTable.RecordFork` | crates/bowery-agent/src/proc_table.rs:191-202 | a full fork map is cleared before a new child |
| `ProcTables.ProcTable.Forget` | crates/bowery-agent/src/proc_table.rs:270-279 | the exit is noted and the fork dropped |
| `ProcTables.TableIsHistory` | crates/bowery-agent/src/proc_table.rs:131-279 | whatever the table still holds after any trace, cleared or not, is what the full trace says |
| `ProcTables.ExeAtIsLatestExec` | crates/bowery-agent/src/proc_table.rs:235-256 | an answer names the pid's latest exec of the trace, inside its window and within the grace of a later exit |
| `ProcTables.PreviousExeIsTheOneBefore` | crates/bowery-agent/src/proc_table.rs:171-182 | an answer names the exec immediately before the latest, inside its window |
| `ProcTables.BoundedAnswersAreRight` | crates/bowery-agent/src/proc_table.rs:131-279 | every direct answer of the bounded table is the unbounded table's, and both maps stay within the cap |
| `ProcTables.KnownUnlessCleared` | crates/bowery-agent/src/proc_table.rs:131-162 | the bounded table knows a pid exactly when the trace has an exec of it and no clear came since the latest |
| `ProcTables.AnswersExactlyWhen` | crates/bowery-agent/src/proc_table.rs:235-256 | the unbounded table answers exactly when the latest exec is in its window and within the grace of a later exit; the bounded one exactly when moreover no clear came since |
| `ProcTables.PreviousAnswersExactlyWhen` | crates/bowery-agent/src/proc_table.rs:171-182 | the unbounded table names the exec before the latest exactly when there is one inside its window; the bounded one exactly when moreover no clear came since that one |
| `ProcTables.ForkAnswersExactlyWhen` | crates/bowery-agent/src/proc_table.rs:191-232 | the forking pid named is that of the latest fork no exit of the child came after, inside its window; for the bounded table moreover with no clear of the fork map since |
| `ProcTables.SourceIsTheAnswer` | crates/bowery-agent/src/pipeline.rs:255-264 | the exec event a parent answer comes from is an exec of the trace with that binary |
| `ProcTables.ParentIsRightExactlyWhen` | crates/bowery-agent/src/pipeline.rs:255-264 | a parent answer of the bounded table comes from the same exec as the unbounded table's exactly unless the parent's latest exec could answer and the exec map was cleared since |
| `ProcTables.ForgottenParentIsMisnamed` | crates/bowery-agent/src/pipeline.rs:255-264 | for every cap a trace after which the bounded table names the wrong parent binary |
| `ProcTables.ExactWhileItFits` | crates/bowery-agent/src/proc_table.rs:131-279 | with no more pids than the cap, bounded and unbounded are equal |
| `PeerWatchdog.PeerLiveness.Observe` | crates/bowery-agent/src/peer_watchdog.rs:137-201 | verdict and new state of one observation, the missing peers in order |
| `PeerWatchdog.PeerLiveness.Watch` | crates/bowery-agent/src/peer_watchdog.rs:298-333 | one round of the loop is one tick of the runs below; it names exactly the accused peers in order and raises an isolation alert exactly when one is due |
| `PeerWatchdog.PeerLiveness.WatchAll` | crates/bowery-agent/src/peer_watchdog.rs:276-338 | the loop over any sequence of looks makes such a run |
| `PeerWatchdog.StateIsHistory` | crates/bowery-agent/src/peer_watchdog.rs:137-201 | the two maps hold exactly each peer's last live observation and its last report since |
| `PeerWatchdog.AccusedExactlyWhenSilent` | crates/bowery-agent/src/peer_watchdog.rs:137-201 | in every run a peer is reported missing exactly when startup is over, somebody is visible, it was live before, has been silent for the grace, and was not reported within the remind window since |
| `PeerWatchdog.ReportsAreSpaced` | crates/bowery-agent/src/peer_watchdog.rs:137-201 | two reports of one peer are at least min(grace, remind) apart |
| `PeerWatchdog.IsolationIsAboutOurselves` | crates/bowery-agent/src/peer_watchdog.rs:137-201 | with nobody visible no peer is accused, and isolation is reported exactly when everyone ever seen is silent past the grace |
| `PeerWatchdog.IsolationAlertsAreSpaced` | crates/bowery-agent/src/peer_watchdog.rs:300-333 | isolation alerts are at least min(grace, remind) apart |
| `PeerWatchdog.IsolationAlertExactlyWhen` | crates/bowery-agent/src/peer_watchdog.rs:300-333 | an isolation alert is raised exactly when the verdict is isolation and no alert since somebody was last visible is within the remind window |
| `PeerWatchdog.VerdictSays` | crates/bowery-agent/src/peer_watchdog.rs:137-201 | "starting" exactly during startup; isolation names how many peers were ever seen |
| `DetectionStats.RuleCounters.Record` | crates/bowery-agent/src/detection_stats.rs:111-118 | one more fired |
| `DetectionStats.RuleCounters.Unflushed` | crates/bowery-agent/src/detection_stats.rs:148-156 | fired less flushed |
| `DetectionStats.RuleCounters.Drain` | crates/bowery-agent/src/detection_stats.rs:177-187 | the delta handed out is what flushed grows by |
| `DetectionStats.NeverOverReports` | crates/bowery-agent/src/sql_tables.rs:592-605 | under every interleaving of recorders, one drainer and any viewers: flushed is at most fired, drained deltas sum to flushed, durable + in flight + failed is base + flushed, and a view never shows more than base + fired |
| `DetectionStats.SnapshotNeverDecreases` | crates/bowery-agent/src/detection_stats.rs:122-139 | a later snapshot is never smaller |
| `DetectionStats.EveryFireCounts` | crates/bowery-agent/src/detection_stats.rs:111-118 | under every interleaving the count is the number of fires |
| `DetectionStats.FlushTakesWhatFired` | crates/bowery-agent/src/agent.rs:697-713 | a flush, whatever fires or is viewed between its steps, takes exactly what had fired when it began and was not taken before, and that is durable or counted as lost |
| `DetectionStats.QuietViewIsExact` | crates/bowery-agent/src/agent.rs:697-713 | with no drain step during its three reads a view falls short of the count it read by exactly what was in flight or failed before |
| `EventLog.Writer.Record` | crates/bowery-agent/src/eventlog_writer.rs:64-71 | queued, or counted as dropped when the queue is full |
| `EventLog.Writer.Receive` | crates/bowery-agent/src/eventlog_writer.rs:126-130 | takes everything queued up to 512, or ends the writer |
| `EventLog.Writer.Finish` | crates/bowery-agent/src/eventlog_writer.rs:131-149 | the batch is committed whole, or counted whole as failed |
| `EventLog.Writer.RunToExit` | crates/bowery-agent/src/eventlog_writer.rs:120-151 | once all senders are gone the writer ends, with nothing queued or in flight and every recorded event committed, dropped or failed |
| `EventLog.NoEventIsLostUncounted` | crates/bowery-agent/src/eventlog_writer.rs:64-151 | at every point recorded = dropped + queued + in flight + committed + failed |
| `EventLog.NothingIsReordered` | crates/bowery-agent/src/eventlog_writer.rs:120-151 | committed, then in flight, then queued is one subsequence of what was recorded |
| `SilenceStore.SigningInputIsInjective` | crates/bowery-proto/src/lib.rs:1643-1668 | records with equal signed bytes are equal in every field but the signature: no field boundary can be shifted |
| `SilenceStore.VerifiedMeansSound` | crates/bowery-agent/src/silence_store.rs:211-248 | a record verifies exactly when a configured operator signed it for this cluster, it constrains something and has not expired |
| `SilenceStore.InsertAgrees` | crates/bowery-agent/src/silence_store.rs:277-309 | an insert keeps the three maps in agreement, and one that changes nothing changes nothing anywhere |
| `SilenceStore.SweepAgrees` | crates/bowery-agent/src/silence_store.rs:341-367 | a sweep drops exactly the expired, from all three maps |
| `SilenceStore.AcceptMeans` | crates/bowery-agent/src/silence_store.rs:258-309 | a record is accepted exactly when sound, unexpired, and known or there is room; it then stands under its id unless what stood there was issued later; "changed" exactly when something changed; other silences and all match counts stay |
| `SilenceStore.RefusedForAReason` | crates/bowery-agent/src/silence_store.rs:211-273 | a refusal names a fault the record has |
| `SilenceStore.Store.Load` | crates/bowery-agent/src/silence_store.rs:162-204 | the state read from a file: blank, comment, undecodable and unverifiable lines skipped |
| `SilenceStore.Store.InsertVerified` | crates/bowery-agent/src/silence_store.rs:277-309 | a later-issued record stays, anything else is replaced; `changed` says whether the entry differs |
| `SilenceStore.Store.Accept` | crates/bowery-agent/src/silence_store.rs:258-273 | verified, refused when full, stored, and the file rewritten exactly when something changed |
| `SilenceStore.Store.Persist` | crates/bowery-agent/src/silence_store.rs:432-455 | the file lists every record once, in some order; or it is unchanged, or cut short, when there is no path, it cannot be opened or the write breaks off |
| `SilenceStore.Store.Decide` | crates/bowery-agent/src/silence_store.rs:316-338 | damped exactly when some held record is about the alert, by one that is and that no other such record beats on fields named, then issue time; to the suspicion times min(permille, 1000) / 1000 within [0, 1]; its count goes up by one; otherwise unaffected |
| `SilenceStore.Store.Sweep` | crates/bowery-agent/src/silence_store.rs:341-367 | expired silences leave the three maps and the file |
| `SilenceStore.Governing` | crates/bowery-analysis/src/silence.rs:253-263 | scanned in any order: a live covering silence no other beats on constrained fields, then issue time; none exactly when nothing covers |
| `SilenceStore.CoversExactlyWhen` | crates/bowery-analysis/src/silence.rs:120-144 | what is stored covers an alert exactly when its record has not expired, names something, and each of the rule, hash and path it names is the alert's own and the host it names is the alert's, spelt in lower-case hexadecimal |
| `SilenceStore.BeatsExactlyWhen` | crates/bowery-analysis/src/silence.rs:253-263 | one silence beats another exactly when its record names more of the four, or as many and was issued later |
| `SilenceStore.DampLeaves` | crates/bowery-analysis/src/silence.rs:171-173 | the score left is the suspicion times min(permille, 1000) / 1000, clamped to [0, 1] |
| `SilenceStore.HexSpells` | crates/bowery-agent/src/silence_store.rs:476-482 | two lower-case hexadecimal digits per byte |
| `SilenceStore.Damp` | crates/bowery-analysis/src/silence.rs:171-173 | the remaining suspicion is never more than there was, and all of it at full weight |
| `SilenceStore.LinesOfRender` | crates/bowery-agent/src/silence_store.rs:432-455 | splitting the written text gives back the comment line and one line per record |
| `SilenceStore.LineOfRecord` | crates/bowery-agent/src/silence_store.rs:178-192 | a record's own line is never taken for blank or comment, and yields the record exactly while it has not expired |
| `SilenceStore.LineCountsExactlyWhen` | crates/bowery-agent/src/silence_store.rs:176-196 | any line counts exactly when, white space around it aside, it is neither empty nor a comment and decodes to a sound record that has not expired |
| `SilenceStore.LinesAreAll` | crates/bowery-agent/src/silence_store.rs:176 | the lines of any file put together again are the file, up to a newline at its end |
| `SilenceStore.LoadHolds` | crates/bowery-agent/src/silence_store.rs:162-204 | loading a file of records with distinct ids, in any order, holds exactly the unexpired ones |
| `SilenceRuns.OnlySignedJudgementsAreHeld` | crates/bowery-agent/src/silence_store.rs:211-309 | in every run with arbitrary pushes, restarts, failed writes and file edits the three maps agree, and each silence held was brought in by some event, signed by a configured operator for this cluster, constrained, unexpired when admitted, with weight in [0, 1], and covers at any time exactly the alerts that record is about |
| `SilenceRuns.RelaysCannotRewrite` | crates/bowery-agent/src/operator.rs:1590-1628 | a record that verifies equals one an operator signed in every field but the signature |
| `SilenceRuns.RestartKeepsExactlyTheLive` | crates/bowery-agent/src/silence_store.rs:162-204 | from any successful rewrite on, whatever came before, through pushes and restarts whose rewrites succeed and sweeps whose rewrites succeed or leave the file alone: loading the file at `t` gives exactly the store with the held silences that outlive `t` and no match counted |
| `SilenceRuns.FailedRewriteIsForgottenExactlyWhen` | crates/bowery-agent/src/silence_store.rs:450-454 | from a file in step with memory, after a push that was a change and could not be written, a restart at `t` keeps exactly the live silences if and only if the new record and the one it replaced have expired by `t` |
| `SilenceRuns.FailedRewriteIsForgotten` | crates/bowery-agent/src/silence_store.rs:450-454 | a silence accepted while the file cannot be opened is held, and gone after a restart |
| `SilenceRuns.ExpiredRevocationCanBeUndone` | crates/bowery-agent/src/silence_store.rs:162-204 | after a restart from a file in step, or a sweep, an older judgement that is pushed again comes back exactly when the newer one had expired by then, the older has not at the push, and there is room |
| `SilenceReissues.HeldIsALatestIssue` | crates/bowery-agent/src/silence_store.rs:258-273 | after any deliveries at any times, no sweep or restart coming between, as many of the verified ids are held as there is room for, each in a latest issue of it |
| `SilenceReissues.DeliveryOrderDoesNotMatterExactlyWhen` | crates/bowery-analysis/src/silence.rs:208-222 | all runs of pushes, sweeps and restarts up to `t` that bring in some sound records leave the same silences in force at `t` if and only if there is no room at all, or none of them outlives `t`, or all their ids fit, no issue of an id outlives `t` unless its latest issues do, and those say the same |
| `SilenceReissues.InForceIsLatest` | crates/bowery-analysis/src/silence.rs:208-222 | under that condition what is in force at `t`, after any such run, is the latest issue of each id with an issue that outlives `t` |
| `SilenceReissues.OutlivedOrderMatters` | crates/bowery-analysis/src/silence.rs:208-222 | an older issue that outlives the latest: a run that ends with nothing in force under the id, and one that ends with the id in force |
| `SilenceReissues.CrowdedOrderMatters` | crates/bowery-agent/src/silence_store.rs:265-267 | more ids than places: a run that leaves a live id out, and one that holds it |
| `SilenceReissues.TiedOrderMatters` | crates/bowery-analysis/src/silence.rs:208-215 | latest issues of one millisecond that differ: two runs that end differently |
| `SilenceReissues.UninterruptedOrderDoesNotMatterExactlyWhen` | crates/bowery-analysis/src/silence.rs:208-215 | without sweeps or restarts every order leaves the same silences held if and only if all ids fit and the latest issues of each id say the same, or nothing fits at all |
| `SilenceReissues.CapacityMakesOrderMatter` | crates/bowery-agent/src/silence_store.rs:265-267 | two orders that end differently, for any records with more ids than places |
| `SilenceReissues.TwoDeliveriesCommute` | crates/bowery-agent/src/silence_store.rs:258-273 | in any store at any time two accepts commute exactly unless both verify and they compete for the last place or tie |
| `SilenceReissues.RedeliveryIsAChangeExactlyWhen` | crates/bowery-agent/src/operator.rs:1596-1628 | after any pushes, sweeps and restarts, a record accepted before is a change again, so relayed again, exactly when it still verifies and a tie has replaced it, as long as nothing held under its id was dropped as expired; when its id is gone, exactly when it still verifies and there is room |

## Left out

- QUIC, TLS pinning, envelope sealing, Ed25519, SHA-256, protobuf and base64: signatures are membership in a set of what was
  signed, digests are normal forms, codecs are functions with a decode-after-encode law and the base64 alphabet.
- SQLite, `/proc`, eBPF, package databases, model inference and the SQL engine: only the values they return.
- Coverage of YARA floods: termination and one pass per window are proved; pins do not change during a silence flood.
- Lost messages: the floods are proved for reliable delivery in any order, so dials that fail and relays aborted with their
  upstream connection are not modelled beyond the failed report.
- SilenceStore.SigningInputIsInjective: fields longer than 32-bit lengths are excluded, because the length prefix saturates.
- SilenceRuns.RestartKeepsExactlyTheLive: assumes, from the rewrite on, a clock that does not go back and a file nobody else edits.
- Corroboration.QuorumVerdict: fewer than 2^32 - 1 peers per round, because the wire counters have 32 bits.
- PeerWatchdog.AccusedExactlyWhenSilent: needs a positive grace; with none a peer is missing the moment it is seen.
- RateLimiting.GrantsAreBounded: reals, so floating-point rounding is not modelled.
- SilenceRuns.FailedRewriteIsForgottenExactlyWhen: a rewrite that is cut short is not covered, because what a cut line decodes to
  depends on the codec.
- Overflow of 64-bit clocks and counters other than the saturations written out, relaxed memory ordering, lock poisoning.
- HeldActions.ExecutionIsCorroboratedTimelyAndOnce: that a round ends after every parking is not claimed, since an exec episode's
  round may end before its model answer parks anything; what waits when it ends has the outcome `HeldActions.OutcomeIsTheRounds`
  states.
- RevocationFlood.PinnedExactlyWhen: pins gained from gossip while revocations spread are not modelled; an agent never gains a pin
  on a peer whose revocation it holds.
- Retention of the event log, rationale texts, alert building, table rendering, configuration, enrolment, bloom filters, log
  witnessing and the probe watchdog: easy members without a property over runs.
