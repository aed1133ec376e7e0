# Civic record backend: verified model

A Dafny model of the parts of the backend whose correctness depends on several functions agreeing with
each other over time, and proofs of what those parts promise.

| file | models |
|---|---|
| `AgendaDiff.dfy`, `AgendaDiffLaws.dfy` | the diff between two extracted agendas: title matching, greedy pairing by slot, sorting; what the result means |
| `Timelines.dfy` | stored snapshots, and one chain of diffs per document |
| `MeetingInstant.dfy`, `PublishedTime.dfy` | wall clock to instant through a zone whose UTC offset changes; what a published date and time read as |
| `Disputes.dfy`, `DisputeService.dfy` | filing, deciding and answering disputes: the tables as values and the steps on them, and the same operations as classes with fields |
| `DisputeLaws.dfy`, `DisputeReplies.dfy`, `DisputeCaps.dfy` | what holds over every run of those steps |
| `DisputeAnswers.dfy` | when each operation on disputes is accepted, what it leaves column by column, and what delivering its reply comes to |
| `MotiveScan.dfy` | the scan that keeps motives out of the audit log, and why an acknowledgement's fixed reason passes it |
| `Mail.dfy`, `MailService.dfy`, `AnomalyNotices.dfy` | suppression, the one sending door, digests, immediate alerts, the digest scheduler, and the notification service that inserts rows and alerts the urgent ones |
| `MailLaws.dfy`, `DeliveryLaws.dfy`, `DigestLaws.dfy`, `TimestampLaws.dfy` | what holds over every run of the senders, whoever calls them: suppression, the delivery record, the counters, the timestamps |
| `EventOutcomes.dfy`, `ScheduledRuns.dfy` | whom an event tells of a finding and how, and whom a scheduled digest serves |
| `NoticeRuns.dfy` | what holds when the notification service is the one that alerts: its events interleaved step by step with each other, digests and subscription changes |
| `EmailAddress.dfy` | one address out of a free-text contact |
| `ReleaseMonitor.dfy` | two version checks and the bounded re-read they share |
| `KeysetExport.dfy` | the streaming export of a table that others change meanwhile |
| `RosterLoad.dfy`, `RosterVerdicts.dfy` | the roster planner and its search for names in fetched bytes; what each refusal says |
| `ChannelAudience.dfy` | the restricted-route predicate, the backfill and the two guard triggers |
| `NullSafeChecks.dfy` | CHECK constraints under three-valued logic and their null-safe rewriting |
| `Sitemap.dfy` | the sitemap printer and a reader that inverts it |
| `Text.dfy`, `Sequences.dfy`, `Options.dfy` | words, trimming, splitting and joining; filtering, counting, stable sorting |

Where the source changes state step by step, the operation is a method, proved to compute a function of
its inputs or of the state before it; the properties are then proved of that function, for every input
and every run. `dafny verify dfyconfig.toml` checks everything.

## What the environment supplies

- Lower-casing, collation, SHA-256, URL and date parsing are parameters. Lower-casing is assumed, where a
  property needs it, to act on ASCII as expected, to be idempotent and to leave white space at the ends of
  a string as it is (`Text.CaseFolding`). A collation is a total preorder that separates document ids.
- The provider, the clocks, the in-memory limiters, the publication wall, fresh references and the
  readings of a monitored endpoint are inputs, arbitrary unless a lemma says otherwise.
- Transactions are serial. Two `deliver` calls for one ledger row do not overlap. Nothing fails between
  a provider's answer and the row update that follows it. A provider call that throws, and a look-up that
  fails on the way to the provider, are inputs; either leaves a dispute's ledger row as it was.
- Agenda items are told apart by position, as the source tells them apart by object identity; the items of
  one agenda are distinct objects.
- Item numbers and drift minutes are real numbers; string lengths count characters.
- A zone's offsets are bounded and its transitions lie further apart than twice the bound. Foreign keys
  hold: a notification's subscription and a route's channel exist. Subscriptions are added, verified,
  enabled and disabled between any two steps, and an event may hold an outdated reading of one; none is
  deleted, and no address of one changes. Columns the migrations declare NOT NULL
  (`status`, `state`, `confidence`) are not null.

## Where the code and its documentation differ

- `backend/src/services/disputes.ts:22-24` speaks of three messages. A dispute gets at most two: one
  acknowledgement and one outcome (`DisputeReplies.AtMostOneReply`).
- `backend/migrations/098_null_safe_check_constraints.ts` describes the old pin check as letting through
  an approved claim with no pin. It let through exactly the approved rows whose `render_sha256` is null
  while the other three columns are set (`NullSafeChecks.PinChecks`).
- The roster planner promises that every planned name appears in the fetched bytes. The check is skipped
  when the searchable text is empty, so the promise holds exactly when the bytes hold a letter outside
  their tags (`RosterLoad.PlannedNamesAppear`, with a page that reads `2` as the counterexample).
- `shaMatches` relies on both shas having seven characters, but only the expected one is held to it
  (`ReleaseMonitor.MatchAgreesOnSeven`); and `readSha` refuses `unknown` only when it is not padded
  (`ReleaseMonitor.UnknownStampReadable`).
- The hourly cap does not need a monotone clock. It holds exactly when the application's clock is never
  ahead of the database's (`DisputeCaps.HourKeptExactly`); running ahead by `skew` shortens the interval it
  protects by `skew` (`DisputeCaps.CapsHold`).
- `docs/superpowers/plans/2026-08-09-subscriptions-delivery.md:86` reads `digest_only` as asking for a daily
  digest in place of immediate mail. The notification service gives the row of a `digest_only` subscription
  the status it gives any other: high and critical findings go out at once (`EventOutcomes.InsertAddsRow`).

One remark on a rule the code does keep. "Only a real delivery gets a timestamp"
(`backend/src/services/email-delivery.ts:228`) holds over every run of the notification service and the
digests, however their steps interleave (`NoticeRuns.TimestampsAlwaysAgree`), because each event alerts only
rows it queued itself, each once. `sendImmediateAlerts` does not itself refuse a row already `sent`: the rule
survives every failure exactly when no alerted row is (`TimestampLaws.AlertsKeepTimestamps`).

## Model

| member | source | states |
|---|---|---|
| `Text.TrimTakesOff` | backend/src/services/disputes.ts:237-248 | `trim` takes white space off both ends, all of it and nothing else. |
| `Text.WhiteSpaceIs` | backend/src/services/agenda-diff.ts:95-97 | White space is that of sections 12.2 and 12.3 of ECMA-262, for `trim` and `\s` alike. |
| `AgendaDiff.TitleKeyIsItsWords` | backend/src/services/agenda-diff.ts:95-97 | Titles that differ only in white space have one key: the lower-cased join of the title's words. |
| `AgendaDiff.IndexByTitle` | backend/src/services/agenda-diff.ts:99-108 | Each normalised title is bucketed with exactly its items, in order; no other key exists. |
| `AgendaDiff.PartnerIsKth` | backend/src/services/agenda-diff.ts:146-159 | The k-th unmatched removal under a number is paired with the k-th unmatched addition under it and nothing else; it stays unpaired exactly when there is none. |
| `AgendaDiff.FindPartner` | backend/src/services/agenda-diff.ts:147-149 | The first untaken addition with the same number is that k-th addition. |
| `AgendaDiff.PairGreedily` | backend/src/services/agenda-diff.ts:142-159 | The loop over mutable sets reports the retitles of that matching and ends with exactly the matched items in the two sets. |
| `AgendaDiff.DiffAgendaItems` | backend/src/services/agenda-diff.ts:124-172 | The whole diff computes the sorted pairing of unmatched removals and additions. |
| `AgendaDiffLaws.SlotCounts` | backend/src/services/agenda-diff.ts:139-169 | Under every number there are exactly min(removals, additions) retitles, and what is left is all additions or all removals, never both. |
| `AgendaDiffLaws.GreedyPairingIsMaximum` | backend/src/services/agenda-diff.ts:146-159 | No other way of pairing removals with additions of the same number has more pairs. |
| `AgendaDiffLaws.DiffIsOrdered` | backend/src/services/agenda-diff.ts:170-171 | Changes come by ascending number and, under one number, additions before removals before retitles; those of one number and kind keep the order the pairing found them in. |
| `AgendaDiffLaws.DiffConserves` | backend/src/services/agenda-diff.ts:124-172 | Each item of either agenda whose title the other does not carry is reported by exactly one change, as often as it is listed and under its own number and title; no other item is reported. |
| `AgendaDiffLaws.DiffMirror` | backend/src/services/agenda-diff.ts:124-172 | diff(to, from) is diff(from, to) with added/removed and the two titles of a retitle exchanged, as multisets. |
| `AgendaDiffLaws.DiffIsPatch` | backend/src/services/agenda-diff.ts:124-172 | Applied to the older agenda's title set, the diff yields the newer one's. |
| `AgendaDiffLaws.EmptyDiff` | backend/src/services/agenda-diff.ts:124-172 | The diff is empty exactly when the two title sets are equal. |
| `Timelines.ParseItemSnapshot` | backend/src/services/agenda-diff.ts:51-64 | A snapshot reads as all of its items, or as unknown when any entry is malformed. |
| `Timelines.SnapshotReads` | backend/src/services/agenda-diff.ts:51-64 | A value reads as items exactly when it is a list of objects with a finite `item_number` and a text `title`, and then as those, one for one. |
| `Timelines.SnapshotRoundTrip` | backend/src/services/agenda-diff.ts:66-71 | What the parse stage writes reads back as written. |
| `Timelines.BuildTimelines` | backend/src/services/agenda-diff.ts:244-299 | Grouping, ordering, diffing and sorting compute the timelines as a function of the rows. |
| `Timelines.TimelineChains` | backend/src/services/agenda-diff.ts:256-287 | n versions give n-1 diffs linking neighbours; changes are missing exactly when a neighbouring snapshot is unreadable, and otherwise are their diff; versions are in order. |
| `Timelines.TimelineReads` | backend/src/services/agenda-diff.ts:252-296 | Version k has the id, number, date, sha, size and item count of the document's k-th row; title, type and address are the oldest row's; each diff carries the snapshots of its two versions. |
| `Timelines.TimelinesInOrder` | backend/src/services/agenda-diff.ts:244-299 | There is one timeline per document that has a row, by title and then by document id. |
| `Timelines.TimelineTelescopes` | backend/src/services/agenda-diff.ts:244-299 | With every snapshot of one document readable, whatever became of the others, folding the first k diffs over version 1's titles gives version k+1's titles, for every k. |
| `Timelines.TimelinesForgetOrder` | backend/src/services/agenda-diff.ts:244-299 | Any permutation of the rows gives the same timelines when (document, version_no) is unique. |
| `Timelines.EveryRowIsOneVersion` | backend/src/services/agenda-diff.ts:244-299 | Column by column, the timelines' versions are exactly the rows, each under its own document: none lost, none filed twice. |
| `MeetingInstant.DateUtcCountsDays` | backend/src/services/agenda-diff.ts:414 | For every year, month, day and time, `Date.UTC` (section 21.4.3.4 of ECMA-262) is the number of days on the calendar since 1970, counted month by month and year by year in either direction, plus the time of day; an out-of-range month carries into the years. |
| `MeetingInstant.MonthsFollow` | backend/src/services/agenda-diff.ts:414 | The last day of a month is followed by the first of the next, leap days and year ends included, exactly unless the year turns over into or out of the two-digit years. |
| `MeetingInstant.TwoPassExact` | backend/src/services/agenda-diff.ts:414-422 | Two offset look-ups return an instant that reads as the wall clock exactly when some instant does. |
| `MeetingInstant.AmbiguousHour` | backend/src/services/agenda-diff.ts:414-422 | An ambiguous wall clock resolves to the earlier instant in a zone west of UTC around that time, and to the later one in a zone east of it. |
| `MeetingInstant.SkippedHour` | backend/src/services/agenda-diff.ts:414-422 | A wall clock no instant reads as lies in the gap of one transition, and the result reads exactly the size of the step away. |
| `MeetingInstant.CrowdedZoneMisses` | backend/src/services/agenda-diff.ts:414-422 | Shows only that the spacing hypothesis is needed: an artificial zone without it, in which the look-up misses an instant that exists. |
| `MeetingInstant.ScheduledInstantExact` | backend/src/services/agenda-diff.ts:378-428 | An instant is produced exactly when date, time and zone can be read, and then reads as the wall clock whenever any does. |
| `PublishedTime.DateReads` | backend/src/services/agenda-diff.ts:370-411 | A text reads as a date exactly when it begins with that year, month and day printed, and as no other. |
| `PublishedTime.TimeReads` | backend/src/services/agenda-diff.ts:371-396 | A text reads as a time exactly when it begins with that hour, in one digit or two, and minute printed. |
| `PublishedTime.InstantShowsPrinted` | backend/src/services/agenda-diff.ts:383-428 | The instant of a meeting whose date and time are printed shows, in its zone, the wall clock that counting the calendar from the printed parts gives, whenever any instant does. |
| `PublishedTime.InstantMeansPrinted` | backend/src/services/agenda-diff.ts:383-428 | Only a meeting with a known zone and a date and a time of day that print so has an instant. |
| `EmailAddress.ParsedAddress` | backend/src/services/dispute-notifications.ts:175-183 | A parsed contact is one lower-case address of address characters only, unchanged by trimming or folding, and parses as itself. |
| `EmailAddress.ParsesExactly` | backend/src/services/dispute-notifications.ts:175-183 | A contact parses exactly when, trimmed, it has at most 254 characters and is dotted atoms, `@` and dotted labels ending in a top-level name; the result is that in lower case. |
| `DisputeService.DisputeTables.SubmitDispute` | backend/src/services/disputes.ts:298-398 | Checks in order, then one transaction: the new tables and the answer are the function `Disputes.Submit` of the old ones. |
| `DisputeService.DisputeTables.DecideDispute` | backend/src/services/disputes.ts:606-654 | A decision is refused for an empty or motive-stating reason, an unknown dispute or one already decided, and otherwise logged, recorded and queued as one step. |
| `DisputeService.DisputeTables.QueueNotification` | backend/src/services/dispute-notifications.ts:381-432 | At most one row per dispute and kind: queued with its event for an address, settled without one otherwise. |
| `DisputeService.DisputeTables.AppendStatusRow` | backend/src/services/pressroom/corrections.ts:227-255 | The log grows by exactly one row unless the reason states a motive. |
| `DisputeService.DisputeMailer.DeliverEvent` | backend/src/services/dispute-notifications.ts:536-614 | Every exit of `deliver`, and the tables and messages it leaves, are the function `Disputes.Deliver` of what it found. |
| `DisputeService.DisputeMailer.SettleRow` | backend/src/services/dispute-notifications.ts:624-639 | Only a queued row is settled, and only `sent` gets a timestamp. |
| `DisputeLaws.ReceiptMeans` | backend/src/services/disputes.ts:335-397 | A receipt names the one dispute just filed, received at the time it says; a rejection has changed nothing, and no existing dispute is touched either way. |
| `DisputeLaws.RulingMeans` | backend/src/services/disputes.ts:606-649 | A decision goes through exactly for an undecided dispute with a reason that is neither blank nor motive-stating; it changes that dispute only, and otherwise nothing. |
| `DisputeLaws.DeliveryMeans` | backend/src/services/dispute-notifications.ts:536-614 | `sent` is answered exactly when a queued row becomes `sent`; a throw leaves the row queued; no other row, dispute or log entry is touched. |
| `DisputeAnswers.SubmissionAnswers` | backend/src/services/disputes.ts:298-398 | A submission gets a receipt exactly when table, lengths, limiters, publication, both caps, reference and reason allow it; otherwise nothing changes and the code is that of the first thing wrong. |
| `DisputeAnswers.ReceiptFiles` | backend/src/services/disputes.ts:363-396 | A receipt has filed one dispute with the submission's own target and its trimmed fields, one row in the log, and the acknowledgement owed to its contact. |
| `DisputeAnswers.DecisionAnswers` | backend/src/services/disputes.ts:606-654 | The code of a decision for every case, and what an accepted one leaves: verdict, review, log row, and the outcome owed. |
| `DisputeAnswers.DeliveryHappens` | backend/src/services/dispute-notifications.ts:536-639 | In a reachable state the event of a queued row hands the provider exactly one message of that kind and reference, unless the address is suppressed or there is no provider, and the row says which; a throw leaves it queued. |
| `DisputeAnswers.DeliveryDeclines` | backend/src/services/dispute-notifications.ts:510-571 | Any other delivery changes nothing, and answers failed, raised or skipped by what is missing. |
| `DisputeAnswers.ReceiptIsAcknowledged` | backend/src/services/disputes.ts:390-394 | Delivering the event an accepted submission leaves sends its filer the acknowledgement. |
| `DisputeAnswers.DecisionIsAnnounced` | backend/src/services/disputes.ts:606-654 | Delivering the event a decision leaves sends the filer that outcome. |
| `DisputeLaws.RunSound` | backend/src/services/disputes.ts:363-396 | In every reachable state the log replays to the table, with one filing and at most one decision per dispute and each row stating the status before it; ledger kinds are exactly {received} or {received, decision}; each ledger row has its event and hash, or is `no_notification_channel` with neither; `sent_at` is set exactly when `sent`. |
| `DisputeLaws.RunForward` | backend/migrations/031_create_record_corrections.ts:68-82 | The log extends every earlier log, a decision is final, and a ledger row that has left `queued` never changes again. |
| `DisputeLaws.QueuedHasAddress` | backend/src/services/dispute-notifications.ts:578-582 | A queued row's contact is an address, so `deliver` never takes its no-address branch in a reachable state. |
| `DisputeReplies.AtMostOneReply` | backend/src/services/dispute-notifications.ts:571-614 | Over every run each (dispute, kind) has at most one provider-accepted message, exactly when its row says `sent`; a dispute has at most two; none is accepted without a row. |
| `DisputeReplies.RepliesGoToFiler` | backend/src/services/dispute-notifications.ts:578-592 | A reply only ever goes to the address parsed from its own dispute's contact. |
| `DisputeReplies.SuppressedFilerHearsNothing` | backend/src/services/dispute-notifications.ts:589-609 | After `suppress`, and until `lift`, no run of submissions, decisions, deliveries, digests and alerts hands the provider any spelling of the address, and the reason stays the first. |
| `DisputeCaps.HourKeptExactly` | backend/src/services/disputes.ts:338-347 | The hourly promise, at most 30 in any closed sixty minutes over every run, holds exactly when the application's clock is never ahead of the database's, with the repository's own motive scan and any environment. |
| `MotiveScan.ReceiptsAreClean` | backend/src/services/review/language.ts:24-99 | The log row of an acknowledgement is never refused: whatever reference is generated, its fixed reason holds none of the motive terms as a whole word. |
| `MotiveScan.MotivesAreFound` | backend/src/services/review/language.ts:82-99 | The scan finds a motive exactly when some stretch of the text with no word character on either side is a term, in any case. |
| `MotiveScan.TermBeginsWithWord` | backend/src/services/review/language.ts:82-95 | Where a term is found, one of the text's maximal runs of word characters stands that the term begins with: no term is found inside a longer word. |
| `DisputeCaps.CapsHold` | backend/src/services/disputes.ts:337-361 | Over every run no target has more than 5 undecided disputes and no closed interval of an hour (less the clocks' disagreement), wherever it starts, holds more than 30 submissions. |
| `MailLaws.NormalizeIdempotent` | backend/src/services/email-suppression.ts:39-45 | Normalising an address twice is normalising it once, and hashes the same. |
| `MailLaws.SuppressIsFound` | backend/src/services/email-suppression.ts:102-117 | A suppressed address is found under every spelling with its normal form, with the reason it had first. |
| `MailLaws.LiftRemoves` | backend/src/services/email-suppression.ts:129-134 | Lifting removes exactly that address's suppression. |
| `MailLaws.SuppressionHolds` | backend/src/services/email-delivery.ts:344-390 | Over every run of the senders that does not lift it, a suppressed address is handed to the provider by none of them. |
| `DeliveryLaws.RunSound` | backend/src/services/email-delivery.ts:206-306 | Over every run a row is `sent` or timestamped only if the provider accepted a message covering it, addressed to its own subscriber; and no accepted digest covers a notification an earlier accepted message covered. |
| `DeliveryLaws.NobodyToldTwice` | backend/src/services/notification.ts:94-110 | For any caller of `sendImmediateAlerts`: when each alert call names distinct rows still awaiting their message, no two accepted messages, digests or alerts, ever tell one subscription of one finding. |
| `DigestLaws.DigestCounters` | backend/src/services/email-delivery.ts:242-306 | sent + failed + dryRun counts the turns that threw before knowing what was due or had something due, which, with repeated ids, are those whose earlier turns all threw. |
| `DigestLaws.DigestTallies` | backend/src/services/email-delivery.ts:242-306 | `sent` is the number of turns whose message was accepted, `dryRun` that of turns with a message and no provider, and `failed` that of the other turns counted. |
| `DigestLaws.RowsTellFate` | backend/src/services/email-delivery.ts:242-306 | After a digest turn every pending row of the severities says what became of its message, with the time of the answer if it was accepted: suppressed or dry-run rows were not handed over, all others were, once, to the subscriber; a throw leaves them pending; no other row changes. |
| `DigestLaws.AlertTellsFate` | backend/src/services/email-delivery.ts:206-240 | The same for one alert, whose throw fails its row. |
| `TimestampLaws.TimestampsHold` | backend/src/services/email-delivery.ts:224-232 | For any caller: over every run in which each alert call names distinct rows not already `sent`, a row has a timestamp exactly when its status is `sent`. |
| `TimestampLaws.AlertsKeepTimestamps` | backend/src/services/email-delivery.ts:206-240 | Alerting a selection of rows keeps statuses and timestamps in step, whatever fails on the way, exactly when none of the rows is already `sent`. |
| `TimestampLaws.DigestKeepsTimestamps` | backend/src/services/email-delivery.ts:286-291 | A digest turn keeps them in step. |
| `TimestampLaws.AlertKeepsTimestamps` | backend/src/services/email-delivery.ts:212-238 | One alert keeps them in step exactly unless it re-sends a `sent` row and throws. |
| `TimestampLaws.RepeatedAlertMisdates` | backend/src/services/email-delivery.ts:233-238 | The hypothesis is needed: a caller that names one queued row in two calls, which the notification service does not do. |
| `AnomalyNotices.NotificationService.InsertNotification` | backend/src/services/notification.ts:72-102 | One insert with the status its subscription and severity call for, ignored on conflict; it answers whether the row is new and queued. |
| `AnomalyNotices.NotificationService.InsertAll` | backend/src/services/notification.ts:67-107 | The two loops insert each flag for each subscription, and the ids collected are exactly the rows that are new and queued. |
| `AnomalyNotices.NotificationService.ProcessAnomalyEvent` | backend/src/services/notification.ts:37-112 | The subscriptions are the verified ones of the meeting's jurisdiction and the flags its published ones of the named types; each pair is inserted once, and exactly the rows queued by it are alerted, each once. |
| `EventOutcomes.InsertAddsRow` | backend/src/services/notification.ts:70-106 | A row is added unless the subscription has one for the finding: skipped without email, queued for critical and high findings, pending otherwise; `digest_only` changes nothing. |
| `EventOutcomes.EveryPairIsTold` | backend/src/services/notification.ts:67-107 | After an event's inserts each subscription has a row for each finding, and no earlier row has changed. |
| `EventOutcomes.EventReaches` | backend/src/services/notification.ts:37-112 | Each verified subscription of the jurisdiction gets, for each published finding it had none for, a new row: skipped, waiting for its digest, or alerted at its own address with what came of it. |
| `NoticeRuns.NobodyEverToldTwice` | backend/src/services/notification.ts:94-110 | Over every run of events, digests, replies and subscription changes, their steps interleaved in any way, no two accepted messages tell one subscription of one finding; nothing is assumed of the alerts. |
| `NoticeRuns.TimestampsAlwaysAgree` | backend/src/services/email-delivery.ts:224-238 | Over the same runs a row has a timestamp exactly when its status is `sent`, and then the provider accepted a message covering it, addressed to its own subscriber. |
| `NoticeRuns.EventIsRun` | backend/src/services/notification.ts:67-111 | What an event does to the tables is such a run: its inserts, then one alert for each row they queued, after which it holds none. |
| `NoticeRuns.EventIsSafeRun` | backend/src/services/notification.ts:67-111 | As a run of calls, an event's one alert call names distinct awaiting rows, and it keeps statuses and timestamps in step. |
| `MailService.EmailDeliveryService.Send` | backend/src/services/email-delivery.ts:344-390 | Suppression comes first, then dry run, then the provider; the message and outcome are recorded as such, and a failing look-up throws with nothing handed over. |
| `MailService.EmailDeliveryService.SendDigest` | backend/src/services/email-delivery.ts:242-306 | The loop computes the tables and the three counters of a digest run. |
| `MailService.EmailDeliveryService.SendImmediateAlerts` | backend/src/services/email-delivery.ts:206-240 | Each wanted and existing row is alerted exactly once, in whatever order the query returns. |
| `MailService.EmailDeliveryService.SuppressAddress` | backend/src/services/email-suppression.ts:102-117 | Refuses exactly an empty address; otherwise inserts unless already present. |
| `MailService.EmailDeliveryService.LiftAddress` | backend/src/services/email-suppression.ts:129-134 | Answers whether the address had been suppressed, and removes it. |
| `MailService.DigestScheduler.RunDailyDigest` | backend/src/services/digest-scheduler.ts:50-59 | Sends medium notifications to each pending, enabled, verified subscription once. |
| `MailService.DigestScheduler.RunWeeklyDigest` | backend/src/services/digest-scheduler.ts:61-70 | The same for low ones. |
| `MailService.ScheduledTotal` | backend/src/services/digest-scheduler.ts:80-91 | A scheduled run's counters add up to the number of subscriptions it was due to serve. |
| `ScheduledRuns.ScheduledRunServes` | backend/src/services/digest-scheduler.ts:80-92 | A scheduled run writes to exactly the enabled, verified subscriptions with a pending row of its severities, leaves every other row as it is, and leaves one of theirs pending only if its turn threw. |
| `ScheduledRuns.SubscriberChanges` | backend/src/routes/subscriptions.ts:135-235 | Whoever unsubscribes is served by no run and has new rows skipped; verified and enabled, a subscription is served exactly when a row of its own waits. |
| `ScheduledRuns.SubscribedOnce` | backend/src/routes/subscriptions.ts:93-133 | A subscription is entered once per address and jurisdiction, unverified, and is not served before it is verified. |
| `ReleaseMonitor.Settle` | backend/src/scripts/external-monitor.ts:646-678 | At most `attempts` re-reads; passes exactly when a passing reading comes before any unreadable one; otherwise keeps the first state or that of a readable re-read. |
| `ReleaseMonitor.ResolveReleaseDrift` | backend/src/scripts/external-monitor.ts:589-616 | An eligible mismatch passes exactly when the expected head is seen within the allowance before any unreadable reading, and otherwise keeps the first reading's state; nothing else is re-read. |
| `ReleaseMonitor.ResolveVersionSkew` | backend/src/scripts/external-monitor.ts:730-761 | The same for a readable disagreement between the two images under a readable policy. |
| `ReleaseMonitor.DriftSettlesOn` | backend/src/scripts/external-monitor.ts:589-616 | What counts as an eligible mismatch and as the head being seen, in terms of the responses. |
| `ReleaseMonitor.SkewSettlesOn` | backend/src/scripts/external-monitor.ts:730-761 | The same for a disagreement and an agreement of the two images. |
| `ReleaseMonitor.UnknownStampReadable` | backend/src/scripts/external-monitor.ts:236-254 | Exactly a padded "unknown" is read as a sha. |
| `ReleaseMonitor.DriftVerdict` | backend/src/scripts/external-monitor.ts:482-556 | Pass exactly for a head that abbreviates the expected one or is abbreviated by it; blocked without a stamp, an expectation or a commit time; otherwise a failure exactly when the age, to the nearest tenth of a minute, is past the allowance, and a warning when it is not. |
| `ReleaseMonitor.VersionVerdict` | backend/src/scripts/external-monitor.ts:268-288 | Pass exactly when both images carry a stamp and it is the same. |
| `ReleaseMonitor.DriftMinutesRounds` | backend/src/scripts/external-monitor.ts:537 | The drift compared with the allowance is within a twentieth of a minute of the real one. |
| `ReleaseMonitor.MatchAgreesOnSeven` | backend/src/scripts/external-monitor.ts:443-510 | A head that passes shares a seven-character abbreviation with the expected sha exactly when the live sha has seven characters. |
| `ReleaseMonitor.OneLetterShaPasses` | backend/src/scripts/external-monitor.ts:443-510 | A response carrying the stamp `a` passes for every expected sha that begins with it, whatever the rest. |
| `KeysetExport.BatchIsSound` | backend/src/services/export/datasets.ts:619-629 | A batch holds rows of the table past the resume point, in increasing order. |
| `KeysetExport.BatchIsFull` | backend/src/services/export/datasets.ts:619-629 | A batch is no longer than asked for, skips nothing up to its last row, and when it is shorter nothing is left. |
| `KeysetExport.StreamDataset` | backend/src/routes/data.ts:66-88 | With the table arbitrary at each batch: emitted ids strictly increase, every id present throughout is emitted, every emitted row stood in the table, the count is right, and the walk ends if finitely many ids exist. |
| `KeysetExport.ExportJson` | backend/src/routes/data.ts:345-360 | The response is the head, the framed rows, and a tail whose `row_count` is the number of rows written; its rows strictly increase, stood in the table, and include every row present throughout. |
| `KeysetExport.FramesReadBack` | backend/src/routes/data.ts:356-358 | Read line by line, the framed stretch gives back exactly the rows, in order. |
| `RosterLoad.StripTagsStrips` | backend/src/scripts/roster-load.ts:106-113 | No tag is left, and text without one is untouched. |
| `RosterLoad.TagBecomesSpace` | backend/src/scripts/roster-load.ts:106-113 | The first tag becomes one space, and what follows it is stripped in the same way. |
| `RosterLoad.NameSearchIsWordSearch` | backend/src/scripts/roster-load.ts:106-120 | A name is found exactly when its letter words are non-empty and a contiguous run of the tag-stripped text's. |
| `RosterLoad.FlatteningsIdempotent` | backend/src/scripts/roster-load.ts:106-120 | Both flattenings are idempotent. |
| `RosterLoad.TextOrderIsDateOrder` | backend/src/scripts/roster-load.ts:195-198 | Comparing two `YYYY-MM-DD` strings compares the dates. |
| `RosterLoad.PlanRosterLoad` | backend/src/scripts/roster-load.ts:141-226 | The loop over `seen`, `refusals` and `rows` computes the plan, or every refusal in order. |
| `RosterLoad.PlanIsAllOrNothing` | backend/src/scripts/roster-load.ts:141-226 | A roster is planned exactly when its header and every entry are sound and no seat is listed twice; the plan then holds one row per entry, in order. |
| `RosterVerdicts.RefusalsAreEarned` | backend/src/scripts/roster-load.ts:141-226 | Each of the twelve refusals is reported exactly when something earns it, and a roster is planned exactly when nothing does. |
| `RosterVerdicts.RefusalsInOrder` | backend/src/scripts/roster-load.ts:141-226 | Refusals come in the order of the checks, those of entries in the order of the roster. |
| `RosterVerdicts.PlanColumns` | backend/src/scripts/roster-load.ts:211-226 | A plan's rows are the entries in order, column by column, with the source, time and sha of what was fetched. |
| `RosterLoad.PlannedNamesAppear` | backend/src/scripts/roster-load.ts:207-210 | Every planned name is in the bytes exactly when the bytes hold a letter outside their tags. |
| `RosterLoad.LetterlessBytesPlanAnyone` | backend/src/scripts/roster-load.ts:207-210 | A page that reads `2` plans a name that is not in it. |
| `ChannelAudience.EventTypeMatchers` | backend/src/services/delivery/channels.ts:208-215 | The list holds exactly the type itself, `*`, and each prefix wildcard. |
| `ChannelAudience.MatchesMeans` | backend/src/services/delivery/channels.ts:208-230 | A pattern matches an event exactly when it is its type, `*`, or what stands before one of the type's dots followed by `.*`. |
| `ChannelAudience.RestrictedIsOpsAudience` | backend/migrations/088_channel_audience.ts:37-41 | The trigger's predicate and `eventTypeAudience` are the same rule. |
| `ChannelAudience.PrivateIsRestricted` | backend/migrations/088_channel_audience.ts:37-41 | The restricted patterns are `*`, `ops`, `dispute` and everything under either. |
| `ChannelAudience.RouteTakesEffect` | backend/migrations/088_channel_audience.ts:76-99 | A route is put exactly when keys allow it and its channel is an ops channel or its pattern is not restricted. |
| `ChannelAudience.ChannelGoes` | backend/migrations/015_create_delivery_channels.ts:24-31 | Deleting a channel deletes its own routes and nothing else. |
| `ChannelAudience.RestrictedIsComplete` | backend/migrations/088_channel_audience.ts:37-41 | A pattern is restricted exactly when it matches some `ops` or `dispute` event. |
| `ChannelAudience.BackfillSeparates` | backend/migrations/088_channel_audience.ts:62-70 | The backfill establishes the separation and relabels only channels that carry a restricted route. |
| `ChannelAudience.GuardsAreExact` | backend/migrations/088_channel_audience.ts:76-133 | The guards refuse a change exactly when it would put a restricted route on a public channel. |
| `ChannelAudience.RunsStaySeparated` | backend/migrations/088_channel_audience.ts:76-133 | No sequence of inserts, updates and deletes puts a restricted route on a public channel. |
| `ChannelAudience.NoRestrictedEventReachesPublic` | backend/src/services/delivery/channels.ts:226-230 | Every route an event at or under `ops` or `dispute` matches belongs to an ops channel, in every reachable state. |
| `ChannelAudience.Database.Migrate` | backend/migrations/088_channel_audience.ts:43-70 | Every channel starts public, then the backfill runs. |
| `ChannelAudience.Database.PutRoute` | backend/migrations/088_channel_audience.ts:76-99 | An insert or update of a route takes effect exactly when neither the guard nor a key refuses it. |
| `ChannelAudience.Database.SetAudience` | backend/migrations/088_channel_audience.ts:104-133 | Relabelling a channel takes effect exactly when the guard allows it. |
| `NullSafeChecks.NullSafeIsExact` | backend/migrations/098_null_safe_check_constraints.ts:62-87 | Wrapping every disjunct accepts exactly the intended rows, a subset of the original's, losing exactly the unknown ones, and agrees with it where every compared column has a value. |
| `NullSafeChecks.HalfWrapped` | backend/migrations/098_null_safe_check_constraints.ts:65-74 | Leaving the first disjunct bare is as good exactly when it is never unknown where the second fails, and always a tightening. |
| `NullSafeChecks.PinChecks` | backend/migrations/098_null_safe_check_constraints.ts:62-75 | What the new pin check accepts, and exactly what the old one let through. |
| `NullSafeChecks.ShaChecks` | backend/migrations/098_null_safe_check_constraints.ts:80-87 | The same for the transcript sha. |
| `NullSafeChecks.CitationChecks` | backend/migrations/095_add_locate_stage.ts:64-72 | The same for citations. |
| `NullSafeChecks.RecordingChecks` | backend/migrations/102_create_meeting_recordings.ts:137-165 | What the two recording checks accept. |
| `NullSafeChecks.ProvenanceChecks` | backend/migrations/103_member_provenance.ts:35-46 | Provenance is all or nothing, and what the bare check would have let through. |
| `Sitemap.SequentialEscapeIsEach` | backend/src/routes/sitemap.ts:78-83 | Three sequential global replacements are one per-character escape (section 2.4 of XML 1.0). |
| `Sitemap.EscapeRoundTrip` | backend/src/routes/sitemap.ts:78-83 | Unescaping recovers every string, and no markup survives escaping. |
| `Sitemap.SitemapRoundTrip` | backend/src/routes/sitemap.ts:105-121 | A reader that spells the tags itself gets back exactly the origin-prefixed paths and timestamps, in order. |
| `Sitemap.OriginDropsSlashes` | backend/src/routes/sitemap.ts:106 | The origin loses its trailing slashes and nothing else. |

## Left out

- SnapshotRoundTrip: `snapshotFromDrafts` is modelled as the stored form of a list of items; drafts have no other fields here.
- SitemapRoundTrip: an empty `lastmod` is printed as none and read back as none, as the printer treats it.
- StreamDataset: ids are integers in the table's key order; the branch that stops on a row without an id is never taken by rows that have one, and rows are their JSON text, already projected. The CSV form is not modelled.
- SendDigest: a row update that fails after the provider has answered is outside the model, like a crash at that point; the source then counts the turn as failed and leaves its rows pending.
- SendImmediateAlerts: the same, and a failure of the update that marks a row failed.
- DeliverEvent: the same for `settle`.
- ProcessAnomalyEvent: the ids of new rows are inputs; the emitter that drives it, and running it without an alert hook, are not modelled.
- Send: memoising the provider client, headers, subject lines, bodies and links are not modelled; a message is its recipient and what it is about.
- SubmitDispute: a reference that is already taken answers as a server error; the fixed-window limiters answer as inputs and their counters are not modelled.
- AppendStatusRow: the motive scan is a parameter (`MotiveScan.StatesMotive` is the repository's); a row keeps its dispute, statuses, reason and actor only.
- Deleting a subscription, and with it its notifications.
- QueueNotification: deduplication inside `emitEvent`, the dispatcher and retries are not modelled; repeated and arbitrary `deliver` calls are.
- Settle: waiting between re-reads and the wording of the verdict are not modelled; only states and counts are.
- Editing a channel's other columns, and down migrations.
- The digest's HTML, message prose, check details and counts in words.
- Real SQL, HTTP routing, `Intl` and the IANA database; only what they return is used.
- The other monitor checks, anomaly rules, severity thresholds and pagination: each is settled by reading one branch.
