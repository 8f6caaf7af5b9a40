# Verified model of the canary harness, the ID allocators and the corpus tools

These modules model the parts of the repository that carry real protocols, state machines and
arithmetic, and prove what they keep over every input, every environment and every interleaving.

* **The conversation harness** (`Store`, `Money`, `Asserts`, `Residue`, `Verdicts`, `Settle`, `Sweep`,
  `Transport`, `Scenario`, `Phases`, `Coverage`, `Judgement`, `Command`, `Witnesses`). Scripted turns run against a system that keeps
  moving on its own. `World` holds that system as an arbitrary history of database states, one per
  instant, each of which also says whether a statement made then is answered. Every statement is
  answered from the instant it runs at, every delay is nondeterministic, and what the script itself
  sleeps is counted. The phases (steps, late sweep, re-evaluation, money checks, exit code) are
  methods proved against `Scenario.Follows`, which records what each result rests on and at which
  instants, in order; `Phases` proves what holds from the first verdict to the exit code, and
  `Coverage` which rows of the conversation a run captures at all. `Asserts`, `Judgement` and `Command`
  say the same things once more from the outside: when a database assert, a step and a whole run pass, in
  terms of stored rows, declared checks and captured turns alone. `Witnesses` gives concrete runs on which
  the harness says something that is not so.
* **The ID allocators** (`Numbers`, `Allocator`, `NumberDirectory`). Two scripts, one protocol: the
  locked read-modify-write of a counter file with non-atomic scans, a truncation before each write,
  crashes, and files that come and go, as interleaved steps; and the same operations run alone, as a
  class over a directory listing.
* **The foreign-key sweep** (`FkSweep`): failed deletes swallowed and retried on the next pass.
* **Corpus arithmetic and inventory** (`Calendar`, `Inventory`, `VisibleText`), **evidence
  resolution** (`Evidence`), **the batch helper** (`Batch`) and **the generated corpus** (`Corpus`).

`dafny verify dfyconfig.toml` checks everything.

## Where the code differs from what it says

* `scripts/migration_id_allocate.py` and `scripts/vt_id_allocate.py` promise that no two callers
  ever receive one number. Among what the model lets happen, that holds of every run exactly when the
  counter file is neither deleted nor rewritten from outside (it is tracked, so checking out an older
  version rewrites it), the lock file is not removed (it is ignored, so cleaning removes it), reading
  the counter never fails with an error (which the code counts as 0), no process ends between
  truncating and writing (by dying, or because the write fails on a full disk), and numbered files do
  not disappear while peeks overlap (`Allocator.DistinctExactlyWhenSafe`, with a run for each way to
  break it). A directory listing that silently misses a file counts as that file having disappeared
  for the moment. A peek takes a shared lock and still rewrites the counter, from a scan that may be
  stale. The journal keeps claim order exactly while the lock file stays
  (`Allocator.JournalOrderExactly`).
* Migration files sort by name in numeric order only up to 999 (`Numbers.NameOrderAgreesExactly`).
* In some catalogue orders two passes of the sweep do not clear a chain of two references above a
  swept row (`FkSweep.ChainDefeatsPasses`; `FkSweep.LeftExactly` says which rows are left).
* The in-flight probe makes two autocommitted statements. A task spawned between them reads as
  finished, and the settle then returns a terminal routing failure that the database later refutes
  (`Settle.SpawnRaceFabricatesAVerdict`, `Settle.TerminalVerdictWrongExactly`). Replies have a similar
  gap: a run row that the poll never finds is reported as a silent drop, not as a timeout
  (`Phases.SilentExactly`, `Witnesses.WorkingRunIsCalledSilent`).
* The comment at `apps/team-orchestrator/canaries/convo_harness.py:1979` says that a send-guard
  breach is never masked. The re-evaluation keeps database reasons only, so it is masked exactly
  when a sweep ran, the step also declares a content check, the whole conversation meets its text
  checks, and the money nets do not fail it as the last step (`Phases.BreachSurvivesExactly`,
  `Witnesses.BreachForgotten`). A filter repairs this iff it keeps
  breaches (`Phases.SurvivalNeedsKeeping`). And only a step's own window is examined for breaches: one
  that arrives later and is swept into a transcript is reported by nothing
  (`Coverage.BreachReportedExactly`, `Witnesses.LateBreachIsUnreported`).
* The third net reads the replies of the captured rows only. A row that lands between two windows is
  in no transcript unless the sweep adds it, and a false count in it goes unheard
  (`Coverage.CapturedExactly`, `Witnesses.FalseCountIsUnheard`).
* The exit code ignores INDETERMINATE (`Phases.CleanExitExactly`).
* The money nets are three statements at three instants: without a quiet interval each is true of
  its own database only (`Phases.CleanExitMeansNetsHeld`, `Witnesses.SendBetweenTheNetsIsMissed`).
* Expecting an approval decision of "pending" is documented as a row whose decision is still NULL; it
  also passes where there is no row (`Store.DecisionPassesExactly`, `Store.PendingWithoutARow`).
* Seeded residue is invisible exactly on tenants less than two days old
  (`Residue.InvisibleExactlyOnYoungTenants`).
* Past 999 cards the corpus generator no longer recognises its own files
  (`Corpus.GeneratedFilesAreExpectedUpTo999`), and the index of an agent that no card names any more
  stays on disk (`Corpus.StaleIndexesStayExactly`).

## Model

| member | source | states |
|---|---|---|
| `Verdicts.EvaluateAssertions` | apps/team-orchestrator/canaries/convo_harness.py:227-309 | the failure list, check by check, in order: silence, missing texts, unwanted texts, fallback-only, no question, and always a failure for a declared run-reason check |
| `Verdicts.WholeConversationOnlyCures` | apps/team-orchestrator/canaries/convo_harness.py:2114-2135 | judged on the whole conversation a step gains no missing text, silence or missing question, and keeps every unwanted text |
| `Verdicts.PartOfReplyText` | apps/team-orchestrator/canaries/convo_harness.py:188-189 | the reply text of any stretch of turns with a reply is a contiguous piece of the reply text of the whole |
| `Verdicts.LongerHaystack` | apps/team-orchestrator/canaries/convo_harness.py:227-309 | a needle found in a part is found, after lower-casing, in the whole |
| `Verdicts.FailureOrigins` | apps/team-orchestrator/canaries/convo_harness.py:227-309 | a reason of any of the six kinds is reported iff a declared check objects to the turns read in full: silence, missing or unwanted text, only a fallback line, no question, or a run-reason check |
| `Verdicts.ReplyTextGrows` | apps/team-orchestrator/canaries/convo_harness.py:184-189 | the reply text is the assistant's texts, each on a line of its own, and nothing of other roles |
| `Verdicts.ContainsExactly` | apps/team-orchestrator/canaries/convo_harness.py:252-259 | a needle is found iff the text is some front, the needle and some rest |
| `Verdicts.LowerIsByCharacter` | apps/team-orchestrator/canaries/convo_harness.py:250-259 | lower-casing replaces each character where it stands |
| `Verdicts.WithoutFirst` | apps/team-orchestrator/canaries/convo_harness.py:220-221 | removing a fallback line removes its first occurrence and then those in the rest |
| `Verdicts.StripExactly` | apps/team-orchestrator/canaries/convo_harness.py:220-221 | stripping takes off white space at both ends, and leaves none there |
| `Store.NewTurnsExactly` | apps/team-orchestrator/canaries/convo_harness.py:406-440 | a conversation read returns exactly the tenant's unseen rows since its creation, each as often as stored, by instant and then by id |
| `Store.CampaignForRunExactly` | apps/team-orchestrator/canaries/convo_harness.py:483-541 | the lookup returns a newest attributable campaign, and none iff none is attributable |
| `Store.RouteExactly` | apps/team-orchestrator/canaries/convo_harness.py:544-575 | the route check passes iff delegation was expected just when a campaign is attributable |
| `Store.DbAssertsReportDbFailures` | apps/team-orchestrator/canaries/convo_harness.py:1708-1745 | database asserts report only database failures, the ones the re-evaluation keeps |
| `Store.ZeroSendsIsNeverVacuous` | apps/team-orchestrator/canaries/convo_harness.py:578-692 | an expected count of zero passes only if no sent row is in scope, with or without an attributable campaign |
| `Store.DecisionPassesExactly` | apps/team-orchestrator/canaries/convo_harness.py:624-644 | an expected decision passes iff the newest approval row has it, "pending" meaning undecided (of several newest at once, one having it is necessary and all having it sufficient); without any row iff "pending" was expected |
| `Store.PendingWithoutARow` | apps/team-orchestrator/canaries/convo_harness.py:624-644 | a database without an approval row on which expecting "pending" passes |
| `Asserts.LookupIsAbout` | apps/team-orchestrator/canaries/convo_harness.py:483-541 | the lookup finds the first of the newest campaigns of its scope: the tenant's since its creation, or those of the run and of runs that the turn's own tasks wait on |
| `Asserts.RouteReportedExactly` | apps/team-orchestrator/canaries/convo_harness.py:544-575 | a route expectation is reported iff it is declared and a campaign of its scope exists just when none was expected |
| `Asserts.EffectReportedExactly` | apps/team-orchestrator/canaries/convo_harness.py:578-692 | presence, decision, exact count and count at least are each reported iff declared and the rows of the campaign of its scope say otherwise |
| `Asserts.CohortReportedExactly` | apps/team-orchestrator/canaries/convo_harness.py:695-727 | a cohort expectation is reported iff no campaign of its scope exists or the one found was planned for another number |
| `Asserts.AssertsPassExactly` | apps/team-orchestrator/canaries/convo_harness.py:1697-1745 | the asserts of a turn pass iff everything declared is so of the rows; without a turn, iff nothing is declared |
| `Money.NoUnapprovedExactly` | apps/team-orchestrator/canaries/convo_harness.py:730-769 | the check passes iff every sent row's key is prefixed by an approved campaign of the tenant |
| `Money.NoDoubleSendExactly` | apps/team-orchestrator/canaries/convo_harness.py:772-792 | the check passes iff no two sent rows share a non-null key |
| `Money.NetsExactly` | apps/team-orchestrator/canaries/convo_harness.py:730-825 | the three nets pass together iff every send has an approved campaign, no key repeats, and every stated count is the tenant's sent total |
| `Money.EachSendHasOneCampaign` | apps/team-orchestrator/canaries/convo_harness.py:730-769 | in a money-safe database each send's key is non-null and names exactly one approved campaign |
| `Money.CampaignCountsAddUp` | apps/team-orchestrator/canaries/convo_harness.py:578-825 | the per-campaign counts of the side-effect assert add up to the tenant's total, which is what every stated count says |
| `Residue.Database.SeedDirtyState` | apps/team-orchestrator/canaries/convo_harness.py:1401-1529 | the exact rows inserted, and nothing else |
| `Residue.CleanUndoesSeeding` | apps/team-orchestrator/canaries/convo_harness.py:1401-1529 | removing the residue ids from a seeded database gives back the original |
| `Residue.SeedingLeavesResidue` | apps/team-orchestrator/canaries/convo_harness.py:1401-1529 | row by row what a seeding adds: two runs, the two weeks old campaign, an undecided and unclaimed approval, a dead-lettered task, and ten turns between 21 and 2 days old |
| `Residue.SeededIsAged` | apps/team-orchestrator/canaries/convo_harness.py:1401-1529 | seeding a tenant younger than two days leaves only residue that is backdated, bound to no campaign or live task, and on runs of its own |
| `Residue.ResidueIsInvisible` | apps/team-orchestrator/canaries/convo_harness.py:406-440 | removing aged residue, from any later database, also one in which the stranded approval has been decided, changes no conversation read, campaign lookup, database assert, money net or in-flight probe |
| `Residue.InvisibleExactlyOnYoungTenants` | apps/team-orchestrator/canaries/convo_harness.py:406-440 | seeding leaves the conversation read unchanged iff the tenant is less than two days old |
| `Transport.PostInbound` | apps/team-orchestrator/canaries/convo_harness.py:861-896 | over every pattern of lost, late, rejected and refused deliveries on three attempts, one MessageSid starts at most one run, and one exactly if an attempt is ever handled; the reply is that of the last attempt, and the caller waits once between two |
| `Transport.Attempts` | apps/team-orchestrator/canaries/convo_harness.py:861-877 | at most three posts; the retry stops at the first answer |
| `Transport.Ingress.Receive` | apps/team-orchestrator/canaries/convo_harness.py:880-896 | the ingress assumed by the retry: the first delivery of a MessageSid starts a run, later ones do not |
| `Settle.PollRunStatus` | apps/team-orchestrator/canaries/convo_harness.py:828-843 | looks one polling interval apart within the window; no status only after the whole timeout without finding the row; running only after the whole timeout with every found row running; any other status from the last look, and no look before it; the script slept once between looks |
| `Settle.ProbeAnswersExactly` | apps/team-orchestrator/canaries/convo_harness.py:1789-1833 | work is in flight iff the probe failed, or a task in one of the three composing states was seen, or no task of the turn was and the grace lasts |
| `Settle.ProbeScopeExactly` | apps/team-orchestrator/canaries/convo_harness.py:1857-1869 | the probe is about the whole tenant iff the turn has no MessageSid or some assert is tenant-wide |
| `Settle.TurnWorkInFlight` | apps/team-orchestrator/canaries/convo_harness.py:1789-1833 | each statement at its own instant; in flight is reported on an error exactly where the database did not answer |
| `Settle.ProbeAndRead` | apps/team-orchestrator/canaries/convo_harness.py:1870-1886 | one round: a probe with grace just as long as the spawn grace lasts; a reading after it, after one more interval if work was in flight |
| `Settle.SettleDbAsserts` | apps/team-orchestrator/canaries/convo_harness.py:1836-1889 | every round in order, and each but the last reading failing; settled has no failures; terminal ends on the first probe without work and a reading after it; indeterminate has failures left as last read, the ceiling passed and every probe in flight; at most ceiling/poll rounds, each slept for once |
| `Settle.WrongTurnProbeExactly` | apps/team-orchestrator/canaries/convo_harness.py:1809-1826 | a turn probe wrongly reports no work iff its two statements straddle the spawn or the grace ran out before the spawn |
| `Settle.TerminalVerdictIsFinal` | apps/team-orchestrator/canaries/convo_harness.py:1836-1889 | the failures of a terminal settling are those of every later state, unless its last probe straddled the spawn |
| `Settle.TerminalVerdictWrongExactly` | apps/team-orchestrator/canaries/convo_harness.py:1836-1889 | where the answer changes only when the work is done, the verdict is wrong iff the probe straddled the spawn and the reading came too early |
| `Settle.TenantWideVerdictIsFinal` | apps/team-orchestrator/canaries/convo_harness.py:1857-1886 | tenant-wide settling has no such race |
| `Settle.SpawnRaceFabricatesAVerdict` | apps/team-orchestrator/canaries/convo_harness.py:1809-1826 | a concrete history and settling in which the race gives a terminal routing failure that the later database refutes |
| `Sweep.TenantHasProducingTask` | apps/team-orchestrator/canaries/convo_harness.py:1892-1908 | yes exactly if the database answered and the tenant had a producing task at that instant |
| `Sweep.LookOnce` | apps/team-orchestrator/canaries/convo_harness.py:1933-1943 | sleep, read the log, then ask about tasks; a failed reading ends the sweep |
| `Sweep.FetchUntilStable` | apps/team-orchestrator/canaries/convo_harness.py:1930-1947 | every look is a real reading in the window, an interval after the last probe, with the count and the producing flag the database gave; the loop stops at the first three equal counts with nothing producing at the last two, or after the cap, or on a failed reading; bounded looks, each slept for once |
| `Sweep.SweepLateReplies` | apps/team-orchestrator/canaries/convo_harness.py:1911-1963 | the uncaptured turns of the last look are added to the last transcript; a failed or missing look changes nothing |
| `Sweep.SweepCaptures` | apps/team-orchestrator/canaries/convo_harness.py:1948-1958 | every fetched turn's key ends up in some transcript and no captured key is added again |
| `Sweep.SameKeyExactly` | apps/team-orchestrator/canaries/convo_harness.py:1924-1928 | two turns are the same to the sweep iff they agree in role and in the first 160 characters |
| `Scenario.DriveTurn` | apps/team-orchestrator/canaries/convo_harness.py:939-1004 | log read before, message posted until answered, run polled for its timeout unless the ingress says there is none, log read after: the transcript is the message, the rows new since before without its own recording, and the route marker; reason and started run are those of the post; the run id is that of the MessageSid; a real SID is a breach |
| `Coverage.TranscriptExactly` | apps/team-orchestrator/canaries/convo_harness.py:939-990 | a captured transcript is the message, the turn's own rows in the order of the log, and a marker telling whether a campaign was attributable |
| `Coverage.PostDecidesPoll` | apps/team-orchestrator/canaries/convo_harness.py:861-974 | the first answered post decides: no poll after a rejection or a refusal for one of the named reasons, else a poll |
| `Coverage.GetsThroughExactly` | apps/team-orchestrator/canaries/convo_harness.py:861-896 | a message gets through iff one of the attempts up to the answered one is ever handled |
| `Scenario.ReadDatabase` | apps/team-orchestrator/canaries/convo_harness.py:2011-2056 | one reading made now and, if it fails with something declared to settle, a settling that starts after it |
| `Scenario.RunStep` | apps/team-orchestrator/canaries/convo_harness.py:1977-2083 | turn, first reading and settling in this order, the verdict they give, and what the message did at the ingress |
| `Judgement.ReasonsExactly` | apps/team-orchestrator/canaries/convo_harness.py:2000-2069 | where no breach and no timeout overrides, a step's reasons are exactly what its checks object to in its reply, what its asserts report of the database at the reading that decided, and that this was never settled |
| `Judgement.PassesExactly` | apps/team-orchestrator/canaries/convo_harness.py:1977-2083 | a step first passes iff no guard was breached, its run did not outlive the timeout unreplied, no declared check objects to its reply, and everything it declares about the database was so at one instant after its turn |
| `Judgement.LabelExactly` | apps/team-orchestrator/canaries/convo_harness.py:312-323 | which label goes with the reasons; the step's own expected-fail mark, else the scenario's, decides between FAIL and XFAIL and between PASS and XPASS |
| `Judgement.PassedMeansMet` | apps/team-orchestrator/canaries/convo_harness.py:1966-2185 | PASS or XPASS at the end means that its own reply, or once cleared the whole conversation, met every check, and unless a breach intervened the database every assert |
| `Scenario.ReevaluateStep` | apps/team-orchestrator/canaries/convo_harness.py:2115-2154 | one step re-judged: cleared completely or returned as it was |
| `Scenario.FirstPass` | apps/team-orchestrator/canaries/convo_harness.py:1975-2083 | one judged result per step, the steps one after the other over one ingress |
| `Scenario.Reevaluate` | apps/team-orchestrator/canaries/convo_harness.py:2109-2154 | every failed step with a content check or a silence is cleared completely or left alone |
| `Scenario.CatchUp` | apps/team-orchestrator/canaries/convo_harness.py:2102-2154 | a sweep with all its looks, then re-evaluation of all steps on the swept results |
| `Coverage.SweepsExactly` | apps/team-orchestrator/canaries/convo_harness.py:2086-2105 | sweep and re-evaluation run iff some step declares an effect or a cohort, or some step's only reply is an interim phrase |
| `Scenario.ApplyNets` | apps/team-orchestrator/canaries/convo_harness.py:2162-2185 | three statements at three instants within the call; any failure overwrites the last result with FAIL |
| `Scenario.FinishRun` | apps/team-orchestrator/canaries/convo_harness.py:2086-2185 | after the steps: sweep and re-evaluation where they apply, then the nets, each at its instants |
| `Scenario.RunScenarioSteps` | apps/team-orchestrator/canaries/convo_harness.py:1966-2185 | in every environment the run follows the phases: steps, then sweep and re-evaluation, then nets, all within the call, with one result per step; what it slept is what its polls, rounds and looks account for |
| `Scenario.ExitZeroExactly` | apps/team-orchestrator/canaries/convo_harness.py:2208-2234 | exit 0 iff no label is FAIL or TIMEOUT |
| `Phases.FinalLabelExactly` | apps/team-orchestrator/canaries/convo_harness.py:1975-2185 | the final label of every step from its first label, the money nets, and the cure: a failed step with a content check or a silence at stake, no check objecting to the whole conversation and no database failure |
| `Phases.LabelDiscipline` | apps/team-orchestrator/canaries/convo_harness.py:1975-2185 | labels change only from FAIL to PASS/XPASS or to FAIL on the last step; TIMEOUT and INDETERMINATE are never upgraded; only a breach can become XPASS |
| `Phases.DatabaseFailuresSurvive` | apps/team-orchestrator/canaries/convo_harness.py:2136-2141 | no database failure is lost and its step never passes later |
| `Phases.OwnPartOfWhole` | apps/team-orchestrator/canaries/convo_harness.py:2114 | a step's transcript is a contiguous part of the conversation it is re-judged on |
| `Phases.TurnsInStepOrder` | apps/team-orchestrator/canaries/convo_harness.py:2114 | that conversation is the transcripts one after the other in step order |
| `Phases.ReevaluationOnlyCures` | apps/team-orchestrator/canaries/convo_harness.py:2109-2154 | re-evaluation adds no curable failure, and a step that first failed on an unwanted text stays failed |
| `Phases.NothingFetchedIsLost` | apps/team-orchestrator/canaries/convo_harness.py:1911-1963 | whatever the sweep's last look found, which came after every step and with the log stable or the cap passed, is in some final transcript |
| `Coverage.RepliesAreCapturedRows` | apps/team-orchestrator/canaries/convo_harness.py:2162-2167 | the replies in the final transcripts, which the nets read, are exactly those of the captured rows |
| `Coverage.CapturedExactly` | apps/team-orchestrator/canaries/convo_harness.py:943-982 | a row is captured iff it lands after the first and up to the last log reading of some step, or the sweep's last look finds it and no step has its role and head of text |
| `Coverage.FinalTranscriptExactly` | apps/team-orchestrator/canaries/convo_harness.py:1948-1958 | a final transcript is the step's own, and the last one also has the swept turns after it |
| `Phases.SilentExactly` | apps/team-orchestrator/canaries/convo_harness.py:192-207 | silent iff silence is forbidden, nothing replied, no breach, and the poll did not end on running; then there was no run, or the whole timeout passed without its row being found, or the last look saw it ended |
| `Phases.TimeoutIsObserved` | apps/team-orchestrator/canaries/convo_harness.py:1987-1995 | TIMEOUT iff silence is forbidden, nothing replied, no breach and the poll ended on running; then the whole timeout passed and every look that found the run saw it running |
| `Phases.DatabaseVerdictsAreSettled` | apps/team-orchestrator/canaries/convo_harness.py:2011-2071 | behind a database failure under FAIL or XFAIL is a settling, after the turn, whose last probe alone saw no work, and a reading after it with that failure; under INDETERMINATE every probe saw work until the ceiling had passed, and the failure was in the last reading |
| `Phases.DatabaseFailureIsFinal` | apps/team-orchestrator/canaries/convo_harness.py:1836-1889 | end to end: such a failure holds at every later instant and its step is FAIL at the end, but for the spawn race |
| `Phases.TenantWideFailureIsFinal` | apps/team-orchestrator/canaries/convo_harness.py:1836-1889 | the same for tenant-wide asserts, where there is no race |
| `Phases.BreachSurvivesExactly` | apps/team-orchestrator/canaries/convo_harness.py:1977-1986 | a send-guard breach keeps its FAIL iff the money nets fail it, no sweep ran, the step declares no content check, or the whole conversation fails its text checks |
| `Coverage.BreachReportedExactly` | apps/team-orchestrator/canaries/convo_harness.py:991-998 | a step's first verdict reports n breaches iff n > 0 reply rows of its own window have a SID beginning with SM or MM in either case |
| `Coverage.BreachesAreFirst` | apps/team-orchestrator/canaries/convo_harness.py:991-998 | no later phase adds a breach |
| `Witnesses.LateBreachIsUnreported` | apps/team-orchestrator/canaries/convo_harness.py:1948-1958 | a concrete run that sweeps in a reply with a real SID, mentions it nowhere and exits with 0 |
| `Witnesses.BreachForgotten` | apps/team-orchestrator/canaries/convo_harness.py:2136-2141 | a concrete run whose only step breached the guard and never saw its sends, swept to stability, and which exits with 0 |
| `Phases.RecheckKeepsDatabaseFailures` | apps/team-orchestrator/canaries/convo_harness.py:2136-2141 | as written, the filter keeps exactly the database failures |
| `Phases.SurvivalNeedsKeeping` | apps/team-orchestrator/canaries/convo_harness.py:2136-2141 | a reason survives every re-evaluation iff the filter keeps it, so keeping breaches too is the repair |
| `Phases.ResultsAreShaped` | apps/team-orchestrator/canaries/convo_harness.py:160-181 | in every run ok holds exactly under PASS, XFAIL and XPASS, and xfail exactly under XFAIL |
| `Phases.CleanExitExactly` | apps/team-orchestrator/canaries/convo_harness.py:2234 | the exit code is 0 iff every step is ok or INDETERMINATE |
| `Phases.CleanExitMeansNetsHeld` | apps/team-orchestrator/canaries/convo_harness.py:2162-2234 | exit 0 iff the steps were clean before the nets and each net held on the database it read; the nets come after every step and the sweep |
| `Phases.CleanExitMeansMoneySafe` | apps/team-orchestrator/canaries/convo_harness.py:2162-2234 | with no send between the three statements, exit 0 iff the steps were clean and the database, read after every step, is money-safe for the captured replies |
| `Phases.CleanExitCountsAddUp` | apps/team-orchestrator/canaries/convo_harness.py:730-825 | after exit 0 every sent row belongs to exactly one approved campaign and the campaign counts add up to every stated count |
| `Command.StatesExactly` | apps/team-orchestrator/canaries/convo_harness.py:2162-2167 | the counts given to the third net are exactly those that a non-empty reply in some final transcript states |
| `Command.ExitsCleanlyExactly` | apps/team-orchestrator/canaries/convo_harness.py:2162-2234 | exit 0 iff every step was clean or cleared before the nets, every message sent had an approved campaign, no two shared a key, and every count stated by any reply is the number of messages sent, each at its net's instant |
| `Command.FalseCountFails` | apps/team-orchestrator/canaries/convo_harness.py:795-825 | one reply anywhere that states another count gives exit 1, with that count among the last step's reasons |
| `Command.CmdScript` | apps/team-orchestrator/canaries/convo_harness.py:2188-2234 | exit 2 without steps; otherwise the exit code of a run whose nets come last, exactly when it is 0 in terms of rows and replies, and how long it can sleep at most |
| `Phases.OneRunPerMessage` | apps/team-orchestrator/canaries/convo_harness.py:861-967 | over a whole run, n steps start at most n runs: once each, those of the MessageSids not seen before whose posts got through |
| `Phases.RunWaitsAtMost` | apps/team-orchestrator/canaries/convo_harness.py:1768-1777 | whatever the system does, a run of n steps sleeps at most n (timeout + 926.5 s) + 140 s |
| `Witnesses.SendBetweenTheNetsIsMissed` | apps/team-orchestrator/canaries/convo_harness.py:2168-2173 | a concrete run that exits with 0 while an unapproved send lands after the first net |
| `Witnesses.FalseCountIsUnheard` | apps/team-orchestrator/canaries/convo_harness.py:2162-2172 | a concrete run that exits with 0 although a reply in the log, before the nets, states a false count |
| `Witnesses.WorkingRunIsCalledSilent` | apps/team-orchestrator/canaries/convo_harness.py:828-843 | a concrete run that fails as silent although the turn's run starts after the timeout and replies |
| `Numbers.ParseFmt` | scripts/migration_id_allocate.py:104-106 | parsing the padded string gives the number back, for every number |
| `Numbers.FmtInjective` | scripts/migration_id_allocate.py:104-106 | two numbers never share a formatted string |
| `Numbers.FmtWidth` | scripts/migration_id_allocate.py:104-106 | three digits exactly up to 999, then one more per power of ten |
| `Numbers.LexIsNumericAtEqualWidth` | scripts/migration_id_allocate.py:104-106 | on digit strings of one length, lexicographic order is numeric order |
| `Numbers.NameOrderAgreesExactly` | apps/team-orchestrator/scripts/apply_migrations.py:157 | file-name order agrees with numeric order iff the widths are equal or the leading digits of the larger number exceed the smaller |
| `Numbers.NameOrderUpTo999` | apps/team-orchestrator/scripts/apply_migrations.py:157 | so always up to 999 |
| `Numbers.NameOrderBreaksAtOneThousand` | apps/team-orchestrator/scripts/apply_migrations.py:157 | and not for 999 against 1000 |
| `Allocator.StepKeepsInv` | scripts/migration_id_allocate.py:86-156 | every step of every interleaving keeps the invariant: the reserve exceeds all issued numbers unless a truncation is under way by a process that still knows the number |
| `Allocator.ScanSeesExactly` | scripts/migration_id_allocate.py:76-83 | whatever happens meanwhile, a directory scan may end with exactly the listings that miss no file present throughout and hold none present at no moment |
| `Allocator.IssuedStrictlyIncrease` | scripts/migration_id_allocate.py:130-144 | in a safe environment every run issues strictly increasing numbers, and at rest counter (or counter and directory) exceed them all |
| `Allocator.DistinctExactlyWhenSafe` | scripts/migration_id_allocate.py:86-156 | no run repeats a number iff the counter is never deleted, rewritten from outside or unreadable, the lock file is never lost, no process ends between truncating and writing, and removals do not meet overlapping peeks |
| `Allocator.DeletionRepeatsANumber` | scripts/migration_id_allocate.py:86-101 | a run that repeats a number after the counter file is deleted |
| `Allocator.TornWriteRepeatsANumber` | scripts/migration_id_allocate.py:141-142 | a run that repeats a number after a death between truncation and write |
| `Allocator.StalePeekRepeatsANumber` | scripts/migration_id_allocate.py:147-156 | a run in which two overlapping peeks and a removed file repeat a number |
| `Allocator.RewriteRepeatsANumber` | scripts/migration_id_allocate.py:86-101 | a run that repeats a number after the tracked counter file is set back from outside |
| `Allocator.FailedReadRepeatsANumber` | scripts/migration_id_allocate.py:93-99 | a run in which reading the counter fails, counts as 0 and repeats a number |
| `Allocator.LockLossRepeatsANumber` | scripts/migration_id_allocate.py:130-137 | a run in which the lock file is removed during a claim and two claimants issue one number |
| `Allocator.JournalFollowsClaims` | scripts/migration_id_allocate.py:109-144 | while the lock file stays, the journal is a subsequence of the claims, and equal to them if no write failed and no claimant died before it |
| `Allocator.JournalOrderExactly` | scripts/migration_id_allocate.py:109-144 | journal order is claim order in every run iff the lock file is never lost |
| `Common.SubsequenceAt` | scripts/migration_id_allocate.py:109-144 | what it means that journal order is claim order: each line stands for a claim, at increasing positions |
| `Allocator.ClaimsFormABlock` | scripts/migration_id_allocate.py:86-144 | from a counter above every file, untouched and readable, and with only files of claimed or older numbers appearing, the numbers form one block without gap or repetition, whatever is created or removed |
| `Allocator.SoloReconcile` | scripts/migration_id_allocate.py:86-101 | an undisturbed reconciliation settles on the larger of the counter and the directory's next number, and leaves it in the counter |
| `Allocator.SoloAllocate` | scripts/migration_id_allocate.py:130-144 | an undisturbed allocation issues that number, journals it and leaves its successor |
| `Allocator.PeekThenAllocate` | scripts/migration_id_allocate.py:147-156 | a peek sees exactly the number the next allocation hands out |
| `NumberDirectory.Directory.ScanMax` | scripts/migration_id_allocate.py:76-83 | the largest number any matching name carries, or 0; the other naming is that of vt_id_allocate.py |
| `NumberDirectory.NumberOfExactly` | scripts/migration_id_allocate.py:73-83 | exactly the names of digits, underscore, one-line rest and .sql (or VT-, digits and .md) carry a number, that of their digits |
| `NumberDirectory.Directory.ReconcileNext` | scripts/vt_id_allocate.py:76-91 | returns and stores the larger of the counter and the scan's successor, an unreadable counter counting as 0 |
| `NumberDirectory.Directory.Allocate` | scripts/vt_id_allocate.py:94-105 | hands out the settled number, as three digits or more or as VT- and its digits, advances the counter past it, and journals it only for migrations and only when the journal can be written |
| `NumberDirectory.Directory.PeekNext` | scripts/vt_id_allocate.py:108-118 | hands out, in the same spelling, the number that the next allocation able to read the counter will claim; a peek able to read it changes nothing about that number |
| `NumberDirectory.FileCarriesItsNumber` | scripts/vt_id_allocate.py:66-73 | a file named after the text handed out is read back with that number by both scans |
| `NumberDirectory.ClaimThenCreate` | scripts/migration_id_allocate.py:130-144 | creating the claimed file does not disturb the counter |
| `FkSweep.KPassesClear` | apps/team-orchestrator/canaries/drill_stage_check.py:94-102 | in any catalogue order, k passes remove every row that clears within k |
| `FkSweep.LeftExactly` | apps/team-orchestrator/canaries/drill_stage_check.py:94-102 | for every catalogue order and every k, a row is left after k passes iff no statement selecting it succeeds by then, each waiting for earlier statements in the pass and for later ones in the pass before |
| `FkSweep.LeftExactlyWhenHeldUp` | apps/team-orchestrator/canaries/drill_stage_check.py:94-102 | where no row is selected twice, that is iff a chain of awaited statements goes to a later one k times or ends at a blocker that nothing removes |
| `FkSweep.ShortChainsClear` | apps/team-orchestrator/canaries/drill_stage_check.py:94-102 | rows with no chain of k referencing rows clear within k passes |
| `FkSweep.AdverseOrderIsExact` | apps/team-orchestrator/canaries/drill_stage_check.py:94-102 | in an adverse order a row is left after k passes iff it does not clear within k |
| `FkSweep.ChainDefeatsPasses` | apps/team-orchestrator/canaries/drill_stage_check.py:94-102 | for every n some order of an n-step chain leaves rows after n passes, and one more pass removes them; n = 2 defeats the two passes |
| `FkSweep.SweptTenantDeletes` | apps/team-orchestrator/canaries/drill_stage_check.py:102 | after the two passes the tenant's own delete succeeds iff each of its blockers is cleared in the order they are tried |
| `FkSweep.Database.TryDelete` | apps/team-orchestrator/canaries/drill_stage_check.py:98-101 | one statement: all its rows go or none, and a violated key is swallowed |
| `FkSweep.AttemptExactly` | apps/team-orchestrator/canaries/drill_stage_check.py:98-101 | a row goes iff its table's column has the tenant and no row that would stay references any row that would go |
| `FkSweep.Database.Sweep` | apps/team-orchestrator/canaries/drill_stage_check.py:94-102 | the nested loops are the passes of the specification |
| `FkSweep.Database.ClearOwnerNumber` | apps/team-orchestrator/canaries/drill_stage_check.py:69-109 | reports whether a tenant with the number in either column is left; removes only rows selected for an owner of the number; clears all of them when each is clearable |
| `Calendar.AddSixMonthsIsValid` | scripts/business_knowledge/convert_o8_candidates.py:305-312 | a valid date, or an error exactly past the calendar's last June |
| `Calendar.SixMonthsExactly` | scripts/business_knowledge/convert_o8_candidates.py:305-312 | six months on, on the same day or on the last of a month too short for it, and no other date |
| `Calendar.SixMonthsInDays` | scripts/business_knowledge/convert_o8_candidates.py:305-312 | 181 to 184 days |
| `Calendar.SixMonthsBoundsAttained` | scripts/business_knowledge/convert_o8_candidates.py:305-312 | both bounds occur |
| `Calendar.SixMonthsMonotone` | scripts/business_knowledge/convert_o8_candidates.py:305-312 | a later date never expires earlier |
| `Calendar.SixMonthsCollide` | scripts/business_knowledge/convert_o8_candidates.py:305-312 | two dates share an expiry iff both are cut to the end of one month |
| `Calendar.TwiceIsAYear` | scripts/business_knowledge/convert_o8_candidates.py:305-312 | twice is the clamped year iff the middle month did not cut more than the final one allows; always up to day 28; never more than 3 days short |
| `Calendar.TwiceCanFallThreeShort` | scripts/business_knowledge/convert_o8_candidates.py:305-312 | the largest gap of three days occurs |
| `Calendar.OrdinalOrder` | scripts/business_knowledge/convert_o8_candidates.py:305-312 | day numbers order dates as the calendar does |
| `Inventory.GroupCards` | scripts/business_knowledge/convert_o8_candidates.py:344-354 | one group per source, holding its cards in order |
| `Inventory.BuildSourceInventory` | scripts/business_knowledge/convert_o8_candidates.py:338-409 | one right row per source in sorted order, or the first offending source in that order |
| `Inventory.InventoryPartitions` | scripts/business_knowledge/convert_o8_candidates.py:338-409 | each card is in exactly one row and the row counts add up to the corpus |
| `Inventory.RowExactly` | scripts/business_knowledge/convert_o8_candidates.py:338-409 | a row has the cards of its source in order, the archive's class or the one class of all its cards, and the flag iff it has a tenth of the corpus or more |
| `Inventory.AcquiredAndExpiry` | scripts/business_knowledge/convert_o8_candidates.py:338-409 | acquired is a lower bound attained by a card of the source, and the expiry follows it by 181 to 184 days |
| `Inventory.AtMostTenConcentrated` | scripts/business_knowledge/convert_o8_candidates.py:338-409 | at most ten sources carry the concentration flag, whatever the corpus |
| `VisibleText.Parser.Feed` | scripts/business_knowledge/convert_o8_candidates.py:128-147 | feeding events has the effect of the specification's fold |
| `VisibleText.CounterIsReflectedWalk` | scripts/business_knowledge/build_o8_t4_corroboration.py:855-872 | the suppression counter is the prefix sum minus the smallest prefix sum, the empty prefix included |
| `VisibleText.PartsAreDataAtLowestPoint` | scripts/business_knowledge/build_o8_t4_corroboration.py:870-872 | a text is kept iff it is not blank and arrives where the walk is at its lowest point so far |
| `VisibleText.FeedingCollectsVisibleText` | scripts/business_knowledge/convert_o8_candidates.py:128-147 | on every document tree the parts are exactly its visible texts in order, and the counter returns to where it was |
| `Evidence.GroupSupports` | scripts/business_knowledge/build_o8_t4_corroboration.py:1025-1034 | each claim's edges in source order |
| `Evidence.SupportsBehind` | scripts/business_knowledge/build_o8_t4_corroboration.py:1025-1034 | each edge records one support, in source and item order, and no support about the claim is left out |
| `Evidence.BuildDelta` | scripts/business_knowledge/build_o8_t4_corroboration.py:1025-1106 | one row per claim, in order: its edges record, field by field and in order, exactly the supports about it; candidate iff two clusters corroborate and none refutes, disputed iff both occur, counting qualifying supports only; both cluster counts |
| `Evidence.StatusDependsOnPairs` | scripts/business_knowledge/build_o8_t4_corroboration.py:1047-1079 | the status depends only on the set of qualifying (cluster, stance) pairs |
| `Evidence.StatusExactly` | scripts/business_knowledge/build_o8_t4_corroboration.py:1047-1079 | candidate iff two distinct corroborating clusters and no qualifying refutation; disputed iff both |
| `Evidence.OnlyCorroborationPromotes` | scripts/business_knowledge/build_o8_t4_corroboration.py:1047-1079 | an edge that raises a claim to candidate is a qualifying corroboration |
| `Evidence.SourceOrderIrrelevant` | scripts/business_knowledge/build_o8_t4_corroboration.py:1025-1079 | any reordering of the sources gives every claim the same status |
| `Evidence.EdgesConserveSupports` | scripts/business_knowledge/build_o8_t4_corroboration.py:1025-1047 | the edges of all rows number the supports of all sources iff every support names a known claim |
| `Evidence.EvidencePredicate` | scripts/business_knowledge/build_o8_t4_corroboration.py:802-823 | the claim split into its maximal runs of lower-case letters and digits; the longest prefix of them whose underscore join fits 200 characters; an error iff that prefix is empty |
| `Evidence.WordsSplitTheClaim` | scripts/business_knowledge/build_o8_t4_corroboration.py:816 | a claim's words are exactly its maximal runs of lower-case letters and digits: it is these words with gaps of anything else around them, none between two words empty |
| `Batch.ResultFor` | apps/team-orchestrator/canaries/batch_judge.py:121-138 | exactly one of text and error, whatever the outcome |
| `Batch.TextOfBlocks` | apps/team-orchestrator/canaries/batch_judge.py:95-105 | a success's text is that of its blocks one after the other, blocks without text left out |
| `Batch.AnswerExactly` | apps/team-orchestrator/canaries/batch_judge.py:121-138 | from the last response of an id: the text of a success, or an error that says which outcome it was |
| `Batch.MissingExactly` | apps/team-orchestrator/canaries/batch_judge.py:193-199 | an id that no response carries is reported missing |
| `Batch.CollectResults` | apps/team-orchestrator/canaries/batch_judge.py:180-200 | every expected id has exactly one of text and error: that of its last response, or the missing error |
| `Batch.OrderFree` | apps/team-orchestrator/canaries/batch_judge.py:180-200 | with unique ids every permutation of the stream gives the same answers |
| `Batch.LastDuplicateWins` | apps/team-orchestrator/canaries/batch_judge.py:180-200 | among duplicates the last to arrive wins |
| `Batch.WaitForBatch` | apps/team-orchestrator/canaries/batch_judge.py:153-177 | the last look decides: it found the batch ended, or it did not and the deadline had passed; no look before it did; bounded looks, one interval slept between two |
| `Batch.RunBatchJudge` | apps/team-orchestrator/canaries/batch_judge.py:203-223 | the wait's last look decides: a timeout found the batch unfinished past the deadline; otherwise the results are those of the ended batch, total over the submitted ids |
| `Corpus.ValidateCards` | scripts/business_knowledge/extract_executional_scenarios.py:5690-5702 | refuses iff slugs repeat or some card has a problem, and names the first |
| `Corpus.CardProblemExactly` | scripts/business_knowledge/extract_executional_scenarios.py:5694-5702 | each fault iff it is the first a card has: no bk, three digits and kebab slug, no agents, no triggers, no local file |
| `Corpus.GeneratedExactly` | scripts/business_knowledge/extract_executional_scenarios.py:5731-5735 | the names taken for the generator's own are three digits, a dash, a slug and .md |
| `Corpus.SyncedContents` | scripts/business_knowledge/extract_executional_scenarios.py:5705-5808 | what a run leaves: each card's text, the README, and every other file that is not of the generator's shape untouched |
| `Corpus.SyncIsIdempotent` | scripts/business_knowledge/extract_executional_scenarios.py:5705-5808 | a second run changes nothing |
| `Corpus.GeneratedFilesAreExpectedUpTo999` | scripts/business_knowledge/extract_executional_scenarios.py:5731-5738 | the generated-pattern files are exactly the expected ones iff there are at most 999 cards |
| `Corpus.PointerNamesTheCardsFile` | scripts/business_knowledge/extract_executional_scenarios.py:5618-5640 | each JSON row points at its own card's file |
| `Corpus.IndexRowsAgree` | scripts/business_knowledge/extract_executional_scenarios.py:5744-5752 | an agent's index has a row iff it is that of a card targeting the agent, and points at that card's file |
| `Corpus.IndexRowsExactly` | scripts/business_knowledge/extract_executional_scenarios.py:5744-5752 | in card order, one row for each time a card names the agent, a decision view exactly for the manager |
| `Corpus.MirrorExactly` | scripts/business_knowledge/extract_executional_scenarios.py:5740-5742 | one full row per card, in order, pointing at its own file |
| `Corpus.IndexRowsEmpty` | scripts/business_knowledge/extract_executional_scenarios.py:5744-5752 | an agent has an index iff some card targets it |
| `Corpus.StaleIndexesStayExactly` | scripts/business_knowledge/extract_executional_scenarios.py:5744-5757 | every index on disk is of a targeted agent iff it was so before the run; the others stay as they were |
| `Corpus.Output.Prune` | scripts/business_knowledge/extract_executional_scenarios.py:5731-5735 | exactly the stale generated files go |
| `Corpus.Output.WriteOutputs` | scripts/business_knowledge/extract_executional_scenarios.py:5705-5808 | refuses before touching anything; a dry run changes nothing and reports the counts of a real one; a real one syncs files, mirror and indexes |

## Left out

- HTTP, psycopg, Twilio, the Anthropic SDK, pdftotext, file I/O and process exits: statements and calls are answered by nondeterministic steps or row sequences.
- `orchestrator.*`, including `_stated_send_count` and the ingress dedupe: the extractor is an arbitrary function, the ingress is the deduplicating table the harness relies on.
- UUID derivation and hashing: run ids are an arbitrary function of the MessageSid; residue ids are assumed fresh; campaign ids are assumed free of ':' and of LIKE wildcards.
- Failure texts: reasons are modelled by kind and contents, not by wording, so the prefix test of the re-evaluation is a test of the kind.
- One step's database asserts are read in one snapshot, where the code reads route, effects and grounded count in successive statements; settling, probes, polls, nets and captures do have instants of their own.
- An error outside the code's own try blocks ends the program with a traceback; such runs have no results and are not modelled.
- Ties in ORDER BY ... LIMIT 1 go to the row stored first.
- Text handling: lower-casing works character by character (no final sigma), digits are ASCII, and the generator's regular expressions cover ASCII names.
- Scenario.DriveTurn: what the system does with a handled message is the history's business; a post that is never answered raises, and such runs have no results.
- Transport.PostInbound: the ingress is the deduplicating table that the retry relies on; its own races are not modelled.
- Phases.DatabaseFailureIsFinal: assumes that a turn has one task, spawned within the grace, whose rows are committed by the time it leaves the producing states; a task that fails this is outside the theorem.
- Phases.CleanExitMeansMoneySafe: assumes no send between the three statements of the nets; without it Phases.CleanExitMeansNetsHeld is what holds.
- Allocator.DistinctExactlyWhenSafe: what else could happen from outside (an edited journal, a second clone, a file system without working locks) is not modelled; a counter file whose text is negative or not a number reads as 0, and several files with one number are one element of the directory.
- FkSweep.Database.ClearTenant: each statement is one DELETE that succeeds or fails as a whole. Rows that a DELETE takes along through cascading keys, from swept tables or from `tenants` into other tables (`migrations/023_*.sql`, `049_*.sql` and `052_*.sql` declare such keys), stay in the model; in this schema none of them holds a key that would block a swept row or a tenant, so they change no outcome.
- Inventory.BuildSourceInventory: `_source_class` is an arbitrary classification, dates are already parsed, and the 10% share is compared as an exact fraction.
- Evidence.BuildDelta: fields that only copy or name things (reasons, archive paths, the ingestion pipeline) are left out.
- Corpus.Output.WriteOutputs: markdown rendering and its shape check are arbitrary functions of the card; the index directory's own README is a fixed text.
- Residue.Database.SeedDirtyState: the onboarding flow sentinel and message bodies are left out; no modelled query reads them.
- Argument parsing, printing, the JSON report, scenario and card data, dashboards, lint and allowlist checkers, brief-ledger matching, step gates, heartbeat and encryption back-fill are not part of this model.
