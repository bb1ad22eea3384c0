# Epode: verified models of the hard parts

This project models the protocols and the dense text and ranking algorithms of Epode's
backend, and of two of its examples, and proves what they are for. Each module is one
component:

| module | component |
|---|---|
| `ExportTable`, `DestinationStore`, `ClaimProtocol`, `RunRecords`, `SyncSchedule`, `CursorCoverage`, `TimelyExports`, `ExactSinks`, `Deployments`, `SharedEndpoints`, `LateDrains` | the data-destination export engine as a step system: claims, runs, cursors, sources, sinks, workers, clock; what the run rows say, and when destinations are due |
| `ExportProgress`, `ExportTurns`, `ExportTurnRecords`, `ExportLoop`, `ExportCycles`, `ExportEngine` | the export loop on values, its refinement of the step system, whole syncs one after another, and the code over a `Store` |
| `RefreshCoordinator`, `SingleFlight`, `FlightOutcomes`, `AbandonedFlights` | the single flight of token refreshes: the bounded table, its callers in every interleaving, where their outcomes come from, and what cancelled callers leave behind |
| `Codecs`, `OpaqueText`, `SecretDetector` | percent and hex codecs, opaque segments, and the publication secret detector |
| `IssueText`, `TextReadings`, `IssueRedaction`, `IssueBody`, `PublishedText`, `PublicationMarks`, `InlineMarks`, `IssueCap`, `IssueWriter`, `IssueContent` | the publication of issues: cleaning, redaction, the body and what of it was scanned, its byte limit, its writer, and the text it comes to |
| `Utf8`, `Substrings`, `Numerals`, `StringOrders`, `PinnedContent` | byte offsets, occurrences, numerals, the order of texts, and checking a search fragment against a pinned file |
| `RankedLists`, `Identifiers`, `CodeMatch`, `CodeSeeds`, `CodeMatchSettlement`, `CodeMatchResumption`, `CodeMatchVerdicts` | search queries, the ranking of matches, and the resolution of candidates over many attempts |
| `CustomerProfile`, `FactScopes`, `FactEvidence`, `ProfileOrder` | the observed customer profile, whom its facts are about, what its evidence shows, and when it depends on the order of its input |
| `ConsentMachine`, `SharedSignals`, `ConsentWarmer`, `AnsweredConsents` | the consent state machine and the consent cache of the two examples, what one call stores and what the server answered |
| `FeaturePages`, `FeatureCursors` | keyset pagination of features, and a way to write its cursors |

Code that changes things step by step is a class or a method with loops, and each such method
is proved equal to a function of its inputs and the old state; the claims below are lemmas
about those functions, over all inputs, all runs or all interleavings.

## Assumptions

* Claim tokens and row ids are fresh UUIDs, and a committed SQL transaction is one step. The
  sweep of stale claims, a claim with its run, and the end of a run are one transaction each,
  as in the source; `started_at` is the same transaction time as `claimed_at`.
* A newly committed source row has a larger `(time, id)` key than every row committed before.
* `CursorCoverage` needs nothing more. `TimelyExports`, `ExactSinks` and the modules on top of
  them take as kept that workers stop at their 8-minute limit and that claims are swept only
  when older than 10 minutes, and that a row id belongs to one workspace; how soon a drain must
  start, and which destinations may exist, are conditions that are proved to be exact.
* Refresh tokens are compared by their digest, which is taken to be injective.
* Every string inside a JSON text is at least two bytes shorter than the text, and base64
  decodes four characters to at most three bytes (section 4 of RFC 4648).
* The commit that search candidates are checked against is pinned: a file that is answered in
  one attempt is answered alike in every other.
* A locked section reads the clock once, inside the lock.
* The cursor of a feature whose key the database accepts and whose time it stores and the
  program can hold is read back as it was written; such a time takes at most 40 characters and
  unpadded base64 four characters for three bytes (section 3.2 of RFC 4648).
  `FeatureCursors.SomeCodecIsValid` gives a way to write cursors that meets all of this.

## Where the code and its documentation part

* The JSON unwrapping of the detector counts against the decoding depth but is not limited
  by it; `SecretDetector.SensitiveIffExposingTrail` says exactly which texts are caught.
* The limits of the export engine exclude a second exporter of a destination if and only if a
  drain starts within the stale age less the run limit, 120 seconds; nothing in the code bounds
  that delay (`TimelyExports.ExcludesSecondIff`, `TimelyExports.LateStartsOverlap`).
* Every source row at or below a cursor is in its sink at its current version, in all states of
  all behaviours, if and only if drains start within those 120 seconds and no two destinations,
  deleted ones included, have the same workspace and the same endpoint
  (`LateDrains.AlwaysExactIff`). Nothing in the code forbids either:
  `SharedEndpoints.SharedEndpointGoesStale` and `LateDrains.LateDrainGoesStale` are the runs
  that leave an old row below a cursor. With prompt drains two destinations that
  do share both are still exact while their batches take turns
  (`ExactSinks.SinkMatchesBelowTheCursor`).
* A refresh flight all of whose callers were cancelled stays in the table until a call for its
  own token arrives, and 512 of them, which 512 cancelled calls can leave, turn away every other
  token all that time (`AbandonedFlights.AbandonedStays`, `AbandonedFlights.CloggedTurnsAway`,
  `AbandonedFlights.CloggedIsReachable`).
* Values are scanned as they were reported and published cleaned, details without triple
  backquotes besides. Where the listed marks are concerned the scan speaks for what is published
  of an inline value as far as marks without a space go, escaped as it is, and as it is read if
  it has no zero-width space; the same of a detail without triple backquotes; and for marks with
  a space if the value is single-spaced besides (`InlineMarks.InlineScanSpeaks`,
  `PublicationMarks.FencedScanSpeaks`). Otherwise it need not: a fence in "sk-ant-x", or a second
  space in "user asked", passes the scan and is gone in the published text
  (`PublicationMarks.SplitPrefixSlipsThrough`, `PublicationMarks.SpacedPhraseSlipsThrough`). For
  a detail that fits its limit, and all lists of marks without a space, the scan speaks for the
  published text exactly when each word that is left without the fences stands in the detail,
  as it does when no fence splits a word (`PublicationMarks.FencedWordScansSpeakIff`,
  `PublicationMarks.UnsplitWordsStand`).
* In the consent example a caller can change what another is shown if and only if the two share
  a customer key or a session key (`ConsentMachine.InterferesIff`). Different customers share
  one when a product or an account holds a colon (`ConsentMachine.ProductColonCollides`,
  `ConsentMachine.AccountColonCollides`), when reference and session read alike joined up
  (`ConsentMachine.SessionKeysMeetIff`, `ConsentMachine.ColonCollides`), or when one's account
  is `-` and the other has none (`ConsentMachine.SubjectsMeetIff`,
  `ConsentMachine.DashAccountCollides`); without any of these only the same customer does
  (`ConsentMachine.OnlyTheSameCustomerInterferes`).
* The consent state and the revision of an envelope are read under two separate locks. The
  claims carry revision zero exactly when no entry is live at the second read, so a
  `feedback_ready` envelope can claim revision zero, but never another revision than the one
  approved while the entry read first is unexpired (`ConsentWarmer.RevisionIsMissedIff`,
  `ConsentWarmer.RevisionMayBeMissed`).
* The profile is independent of the order of its input exactly when activities that agree in
  time, session and operation look alike: the same reference, and both of a customer or
  neither (`ProfileOrder.OrderNeverShowsIff`, `ProfileOrder.OrderCanShow`).

## Model

| member | source | states |
|---|---|---|
| ExportTable.FetchIsSlice | backend/src/destinations.rs:1056-1145 | a batch is the contiguous run of rows from the first one above the cursor, as many as the limit allows or all there are |
| ExportTable.FetchIsNextRun | backend/src/destinations.rs:1056-1145 | a batch is in key order, above the cursor and at most the limit long; that it is contiguous is `FetchIsSlice` |
| ExportTable.FetchSkipsNothing | backend/src/destinations.rs:1056-1145 | every row between the cursor and the last key of a batch is in the batch |
| ClaimProtocol.ClaimTimeTokenAndRunAgree | backend/src/destinations.rs:705-839 | in every reachable state a destination has a claim time iff a claim token iff exactly one running run, and a deleted one has no run |
| ClaimProtocol.SettledRunNeverChanges | backend/src/destinations.rs:868-894 | no step rewrites a run that has left `running`; only deleting its destination removes it |
| ClaimProtocol.SettledForever | backend/src/destinations.rs:847-894 | over any stretch of any run a settled run stays exactly as it was while it exists |
| ClaimProtocol.LateFinishIsANoOp | backend/src/destinations.rs:847-894 | a finish whose claim was released or taken over changes nothing in the store; otherwise it records a success with its count and no error, or a failure with 0 records and the first 500 characters of its error, frees the claim, and puts the next sync off by the interval or by five minutes |
| RunRecords.RunRowsAreTrue | backend/src/destinations.rs:705-894 | every run row in every reachable state: started by a claim at its time and for its reason; it reads succeeded with n only if its worker ended with n exported, and failed only with its worker's error shortened or by a sweep |
| RunRecords.WorkersAreTrue | backend/src/destinations.rs:1359-1440 | every worker in every reachable state: its job is what its claim found, its count is the rows of the batches it advanced over, and its error is a failed call's, a broken delivery's or the run limit's |
| RunRecords.SucceededRunsCountTheirRows | backend/src/destinations.rs:1359-1411 | over all behaviours a run recorded as succeeded reports exactly the rows of the batches it advanced over |
| RunRecords.TimeOutsAreDue | backend/src/destinations.rs:1414-1440 | a run is timed out only 480 seconds after its drain started |
| SyncSchedule.DestinationStep | backend/src/destinations.rs:604-642 | a destination goes only by deletion; its switch and interval are what the last update said; its next sync moves only with an update that makes it due or with the end of a sync |
| SyncSchedule.NewDestinationIsDue | backend/src/destinations.rs:579-600 | a new destination is enabled, unclaimed and due at once |
| SyncSchedule.ScheduledSyncsKeepTheirDistance | backend/src/destinations.rs:731-894 | over all behaviours a scheduled sync starts no earlier than the interval after a success and five minutes after a failure, unless an update made the destination due |
| CursorCoverage.NothingBelowTheCursorIsMissing | backend/src/destinations.rs:931-956 | in every interleaving, zombie workers and blind cursor writes included, a source row at or below the cursor is in the sink in some version |
| TimelyExports.ExcludesSecondIff | backend/src/destinations.rs:54-63 | a bound on the delay between claim and drain excludes a second exporter in all behaviours if and only if it is at most 120 seconds, the stale age less the run limit |
| LateDrains.AlwaysExactIff | backend/src/destinations.rs:1359-1425 | for every deployment: every source row at or below a cursor is in the sink at its current version in all states of all behaviours if and only if drains start within 120 seconds, the stale age less the run limit, and no two destinations have the same workspace and endpoint |
| Deployments.NoRepeatsTakesTurns | backend/src/destinations.rs:1359-1410 | with prompt drains and no such pair, no batch is fetched while another live worker has one in hand from the same workspace for the same endpoint |
| SharedEndpoints.SharedEndpointGoesStale | backend/src/destinations.rs:1359-1410 | for any two destinations with the same workspace and endpoint, a punctual run in which the worker of the deleted one delivers last and the sink keeps the old row below the other's cursor |
| LateDrains.LateDrainGoesStale | backend/src/destinations.rs:1414-1425 | for every longer delay and every destination, a run in which a late worker delivers the old row after the next job has exported the new one |
| TimelyExports.LateStartsOverlap | backend/src/destinations.rs:1414-1425 | for every longer delay, a run in which sweeps and workers keep their limits and two jobs of one destination export at once |
| ClaimProtocol.SweepFreesStaleClaims | backend/src/destinations.rs:705-729 | a sweep frees exactly the destinations claimed before its bound, fails exactly their running runs, and changes no other destination's rows |
| ExportEngine.Store.ClaimDueDestination | backend/src/destinations.rs:731-778 | sweeps, then claims the earliest due enabled unclaimed destination, or finds that none is due |
| ExportEngine.Store.ClaimDestinationNow | backend/src/destinations.rs:783-839 | sweeps, then claims; a claimed destination is a conflict and an unknown one is not found, and neither changes anything more |
| ExportEngine.Store.FinishRun | backend/src/destinations.rs:847-894 | records the outcome under the run's status and the claim token: the finish step, of which `ClaimProtocol.LateFinishIsANoOp` says what it writes |
| ExportEngine.Store.ExportBatch | backend/src/destinations.rs:1371-1407 | one turn reads, fetches, delivers and only then advances; wherever a call fails, or a delivery keeps only some rows, the store is left as `Turn` says |
| ExportEngine.Store.ExportStream | backend/src/destinations.rs:1370-1408 | the inner loop ends, and leaves the store and its verdict as `Turns` says for every list of answers |
| ExportEngine.Store.ExportDestination | backend/src/destinations.rs:1355-1411 | a run over both streams leaves the store as `AfterRun` says for every list of answers, returns its total or the failed call's error, and an unsealing error touches nothing else |
| ExportLoop.RunTakesSteps | backend/src/destinations.rs:1359-1411 | a concrete run, failing where it may, is a path of steps of the system |
| ExportLoop.RunLeavesNothingMissing | backend/src/destinations.rs:1359-1411 | so wherever a behaviour has led, a run from there leaves no row at or below a cursor missing from its sink |
| ExportLoop.RunExportsInOrder | backend/src/destinations.rs:1359-1411 | a run exports the first rows pending, interactions before reports, up to the cap; if a call fails it stops there as failed, with the cursors at what was advanced over and in the sink besides only rows still pending |
| ExportLoop.RunIsRunOnce | backend/src/destinations.rs:1359-1411 | a run whose calls all succeed moves both cursors over exactly the first rows pending, up to the cap, and reports their number |
| ExportTurns.StreamExports | backend/src/destinations.rs:1370-1408 | one stream exports its pending rows in order until they, the cap or a call give out, and says which |
| ExportTurnRecords.StreamTurnsTell | backend/src/destinations.rs:1370-1408 | every turn but the last exports exactly 500 rows; the last fails with its own call's error, the cursor unmoved and the sink holding all of the batch or the part the receiver kept, or finds the cap of 10,000, or takes the fewer rows that are left |
| ExportTurns.RunExports | backend/src/destinations.rs:1359-1411 | both streams: reports are exported only once the interactions are exhausted, and the cap is shared |
| ExportProgress.RunMovesMin | backend/src/destinations.rs:1370-1409 | one run on a frozen source exports min(pending, 10000) rows and leaves the rest pending |
| ExportProgress.RunMovesForward | backend/src/destinations.rs:1370-1409 | a run never moves a cursor back, and each cursor it moves goes strictly forward |
| ExportProgress.RunsMoveMin | backend/src/destinations.rs:1370-1409 | k runs on a frozen source export exactly min(N, 10000 k) of its N pending rows |
| ExportCycles.SyncIsRunOnce | backend/src/destinations.rs:783-894 | a whole sync, claim to finish, records exactly the rows one run exports and frees the destination |
| ExportCycles.SyncsExportMin | backend/src/destinations.rs:783-894 | k whole syncs on a frozen source are a path of the system and report exactly min(pending, 10000 k) rows together |
| RefreshCoordinator.PruneKeepsTable | backend/src/os_accounts.rs:323-329 | pruning keeps the table sound and every pending flight entered |
| RefreshCoordinator.PruneDropsExpired | backend/src/os_accounts.rs:323-329 | what pruning drops had settled and was started more than a minute before, and no such entry is left |
| RefreshCoordinator.Coordinator.EvictSettled | backend/src/os_accounts.rs:331-348 | the eviction loop ends with the table `MakeRoom` describes |
| RefreshCoordinator.Coordinator.JoinOrOpen | backend/src/os_accounts.rs:219-245 | the locked section of a refresh: join, open, or fail at capacity |
| RefreshCoordinator.Coordinator.Cleanup | backend/src/os_accounts.rs:268-280 | the delayed cleanup removes the token only while it points at this very flight |
| RefreshCoordinator.CleanUpKeepsOthers | backend/src/os_accounts.rs:268-280 | a delayed cleanup of a settled flight keeps the table sound and every other flight in it |
| RefreshCoordinator.MakeRoomEvictsSettled | backend/src/os_accounts.rs:331-348 | eviction takes the settled entry that has queued longest, keeps every pending flight, and leaves room unless all 512 entries are pending |
| RefreshCoordinator.JoinKeepsTable | backend/src/os_accounts.rs:219-245 | joining keeps the table sound and every pending flight in it, and the caller's flight is the token's |
| RefreshCoordinator.JoinFailsWhenFull | backend/src/os_accounts.rs:226-231 | a refresh is turned away exactly when 512 other tokens' flights are all pending |
| SingleFlight.QueueAndEntriesAgree | backend/src/os_accounts.rs:218-245 | in every interleaving the queue is duplicate-free, lists exactly the entered tokens, and has at most 512 |
| SingleFlight.OnePendingFlightPerToken | backend/src/os_accounts.rs:323-348 | a pending flight is never pruned, evicted or cleaned up, so one token never has two |
| SingleFlight.JoinersSeeOneOutcome | backend/src/os_accounts.rs:247-263 | every caller that returned from a flight saw the same outcome; which one is `FlightOutcomes.CallersReturnTheAnswer` |
| FlightOutcomes.CallersReturnTheAnswer | backend/src/os_accounts.rs:247-288 | over all behaviours a caller comes back from a flight with exactly what a caller that was running the flight's POST was answered |
| FlightOutcomes.FlightsAreOpened | backend/src/os_accounts.rs:219-245 | a flight is filed under the token, and started at the time, of the call that opened it |
| FlightOutcomes.CallersAreOnTheirToken | backend/src/os_accounts.rs:216-247 | a caller is only ever on a flight of a token it called for |
| FlightOutcomes.QueueIsInOrder | backend/src/os_accounts.rs:239-241 | in every reachable state the queue lists the entered flights in the order they were opened |
| FlightOutcomes.EveryReturnIsCleanedUp | backend/src/os_accounts.rs:264-281 | the first caller back from a flight leaves its cleanup, due 60 seconds later, which waits or has run; there are never two |
| FlightOutcomes.CleanupsRunOnce | backend/src/os_accounts.rs:264-281 | a cleanup waits until it runs, not before it is due, and then its flight is out of the table |
| SingleFlight.CleanupSparesNewerFlights | backend/src/os_accounts.rs:264-281 | a cleanup, however late, never removes another flight |
| SingleFlight.OnePostPerMinute | backend/src/os_accounts.rs:247-281 | unevicted flights of a token are at least a minute apart, and a flight that is not cancelled is posted once |
| SingleFlight.CallsWithinAMinuteJoin | backend/src/os_accounts.rs:219-226 | while an unevicted flight is younger than a minute, every call for its token joins it |
| AbandonedFlights.AbandonedStays | backend/src/os_accounts.rs:218-263 | a pending flight whose callers were all cancelled is never pruned, evicted or cleaned up as long as no call for its token arrives |
| AbandonedFlights.CallRevives | backend/src/os_accounts.rs:218-247 | a call for its token joins it and may run the POST |
| AbandonedFlights.CloggedTurnsAway | backend/src/os_accounts.rs:226-231 | once all 512 entries are such flights, every call for another token is turned away until a call for one of their tokens arrives |
| AbandonedFlights.CloggedIsReachable | backend/src/os_accounts.rs:218-263 | 512 calls for different tokens, each cancelled before its result, bring that about |
| Codecs.PercentEncodeQueryValue | backend/src/github.rs:1412-1425 | the encoding loop computes the encoding of section 2 of RFC 3986 |
| Codecs.OneByteIsEncoded | backend/src/github.rs:1412-1425 | a letter, a digit or one of `-._~` is left as it is; any other byte becomes a percent sign and its two hex digits, none in lower case |
| Codecs.EncodingIsBytewise | backend/src/github.rs:1412-1425 | texts are encoded byte by byte |
| Codecs.DecodePercent | backend/src/issue_template.rs:597-617 | the decoding loop replaces exactly the valid escapes, and reports nothing without one or when the result is not text |
| Codecs.DecodingCopies | backend/src/issue_template.rs:597-617 | decoding copies a text up to its first percent sign |
| Codecs.DecodingReads | backend/src/issue_template.rs:602-612 | at a percent sign two hex digits in either case are read as one byte; without two of them the sign stands for itself |
| Codecs.PercentRoundTrip | backend/src/issue_template.rs:597-617 | decoding an encoded text gives the text, or reports no change because there was none |
| Codecs.DecodingShrinks | backend/src/issue_template.rs:597-617 | decoding never lengthens a text, and each replaced escape takes two bytes away |
| Codecs.RenderGroupMarker | backend/src/issue_template.rs:237-246 | the marker loop computes `g` and the key in lower-case hex |
| Codecs.MarkerRoundTrip | backend/src/github.rs:1388-1409 | a marker is `g` and two lower-case hex digits for each byte of the key, and these decode to the key |
| Codecs.MarkersAreInjective | backend/src/issue_template.rs:232-246 | distinct group keys have distinct markers |
| OpaqueText.OpaqueSegments | backend/src/issue_template.rs:663-685 | the scan yields exactly the longest opaque runs, in order |
| OpaqueText.ContainsSecretShape | backend/src/issue_template.rs:687-716 | the nested loops find a token-like segment or a chain of two to eight linked neighbours that is token-like when joined, and only those |
| OpaqueText.SecretShapeIff | backend/src/issue_template.rs:687-716 | the shape of a secret, said of the text alone: a token-like run, or two to eight neighbouring runs of four bytes or more, at most three bytes apart, that are token-like put together |
| OpaqueText.OpaqueIsAlphabet | backend/src/issue_template.rs:667-667 | a run is made of letters, digits and `-._~+/=` |
| SecretDetector.HopShortens | backend/src/issue_template.rs:444-465 | percent, base64 and JSON unwrapping each shorten the text, which is why the detector ends |
| SecretDetector.JsonUnfolds | backend/src/issue_template.rs:538-550 | a JSON value is sensitive for a credential member or a sensitive string at any nesting, and for nothing else |
| SecretDetector.SensitiveIffExposingTrail | backend/src/issue_template.rs:444-550 | a text is sensitive exactly when an allowed chain of unwrappings ends in a text that gives itself away; base64 opens exactly what `Opens` says |
| SecretDetector.Base64TextOpens | backend/src/issue_template.rs:628-654 | a segment is decoded exactly when it has sixteen characters or more, and to the first of eight readings that is text, the four engines on it and then on it without its `=`, if that is not empty and printable |
| SecretDetector.Base64HidesNothing | backend/src/issue_template.rs:458-465 | above depth two a text is sensitive if such a reading of one of its segments is sensitive one deeper |
| SecretDetector.TrailsAreShort | backend/src/issue_template.rs:455-465 | no chain decodes percent or base64 more than twice, and none is longer than its text |
| SecretDetector.DeepTrailsOnlyOpenJson | backend/src/issue_template.rs:531-550 | from the second depth on only JSON strings are opened |
| SecretDetector.SensitiveAtSmallerDepth | backend/src/issue_template.rs:444-465 | the verdict is monotone: sensitive at a depth implies sensitive at every smaller one |
| SecretDetector.EncodingHidesNothing | backend/src/issue_template.rs:458-462 | percent-encoding a sensitive text costs at most one depth |
| SecretDetector.TwoEncodingsHideNothing | backend/src/issue_template.rs:417-465 | a text that gives itself away is still caught after two percent-encodings |
| IssueText.CleanTextIsOneLine | backend/src/issue_template.rs:884-889 | cleaned text has no white space but single spaces, none in front, and at most `max` characters |
| IssueText.CleanTextKeepsIff | backend/src/issue_template.rs:884-889 | cleaning leaves a text as it is exactly when it is single-spaced and short enough |
| TextReadings.CleaningCollapses | backend/src/issue_template.rs:884-889 | any white space cleans like one space, two in a row like one, and none counts at either end |
| TextReadings.CleaningCuts | backend/src/issue_template.rs:972-986 | what is too long keeps its first characters, and its last becomes an ellipsis |
| TextReadings.WhitespaceIs | backend/src/issue_template.rs:884-889 | white space is the Unicode property, code point by code point |
| IssueText.RemovingLeavesNoFence | backend/src/issue_template.rs:964-964 | removing triple backquotes leaves none, and of a run of backquotes the remainder by three |
| TextReadings.RemovingReads | backend/src/issue_template.rs:964-964 | the first triple backquote is taken out, and removal goes on behind it |
| IssueText.CleanTextIsFenceFree | backend/src/issue_template.rs:884-889 | collapsing white space and cutting puts no fence together |
| IssueText.EscapingRoundTrip | backend/src/issue_template.rs:902-923 | escaped text unescapes to the original and never has two backquotes side by side |
| TextReadings.EscapingReads | backend/src/issue_template.rs:912-921 | exactly the thirteen special characters get a backslash, and a list mark at the very start |
| IssueText.NeutralizeWww | backend/src/issue_template.rs:941-955 | the search loop breaks exactly the occurrences of `www.` in any case, left to right |
| IssueText.NeutralizedReadsTheSame | backend/src/issue_template.rs:932-955 | without zero-width spaces a neutralised text is the original |
| IssueText.NeutralizedLinksNothing | backend/src/issue_template.rs:932-955 | after neutralising there is no `://`, no `www.` in any case, and every at sign and hash is followed by a zero-width space |
| TextReadings.NeutralizingKeeps | backend/src/issue_template.rs:932-955 | a text without mentions, references and links is not changed |
| TextReadings.ReferencesAreMarked | backend/src/issue_template.rs:932-939 | the first at sign or hash gets a zero-width space behind it, and the rest is neutralised on its own |
| TextReadings.SchemesAreBroken | backend/src/issue_template.rs:932-939 | the first `://` is broken behind its colon, and the rest is neutralised on its own |
| TextReadings.WwwIsBroken | backend/src/issue_template.rs:941-955 | the first `www.`, in any case, is broken before its dot, and the rest is neutralised on its own |
| IssueRedaction.MarkSensitiveAdjacentWindows | backend/src/issue_template.rs:396-413 | the loops add exactly the members of all windows of two to four fragments that are sensitive together |
| IssueRedaction.RedactionsForIssue | backend/src/issue_template.rs:326-393 | the policy redacts exactly the values sensitive alone or in such a window of all fields or of all details |
| IssueBody.PublishedIsScanned | backend/src/issue_template.rs:62-206 | every customer value the title or the body can show, under all limits, is in the scanned list and is not redacted |
| IssueBody.NoWindowMemberIsPublished | backend/src/issue_template.rs:320-413 | no value that is shown, taken as it was reported, is sensitive alone or belongs to a sensitive window |
| PublishedText.FencedBodyKeepsIff | backend/src/issue_template.rs:957-970 | what is published of a detail is the detail itself exactly when it has no triple backquote, is single-spaced and short enough |
| PublishedText.InlineReadsAsCleaned | backend/src/issue_template.rs:891-955 | an inline text unescapes to its cleaned value but for zero-width spaces |
| PublishedText.TidyTextsAreSafe | backend/src/issue_template.rs:320-413 | no tidy text between fences is sensitive or belongs to a sensitive window |
| InlineMarks.InlineScanSpeaks | backend/src/issue_template.rs:891-955 | no listed mark without a space in an inline value means none in its escaped and neutralised text, nor, without a zero-width space in the value, in the text as it is read; no listed mark at all means none when the value is single-spaced |
| PublicationMarks.FencedScanSpeaks | backend/src/issue_template.rs:263-288 | the same of a detail without triple backquotes |
| PublicationMarks.FencedWordScansSpeakIff | backend/src/issue_template.rs:957-970 | for all lists of marks without a space: finding none in a detail means none is published of it, if each word left without its fences stands in it, and for a detail that fits its limit only if |
| PublicationMarks.UnsplitWordsStand | backend/src/issue_template.rs:964-964 | each such word stands in the detail when its fences split no word |
| PublicationMarks.SplitMarkSlipsThrough | backend/src/issue_template.rs:957-970 | two halves without a mark that together have one: with a fence between them the policy is followed, the detail is clear, and the text between its fences has the mark |
| PublicationMarks.SplitPrefixSlipsThrough | backend/src/issue_template.rs:467-487 | with the listed marks this happens to "sk-a" and "nt-x" |
| PublicationMarks.SpacedPhraseSlipsThrough | backend/src/issue_template.rs:263-288 | a phrase of the list with two spaces passes the scan and is published with one |
| PublicationMarks.SplitKeyIsJoined | backend/src/issue_template.rs:964-964 | a text split by a triple backquote is published whole |
| IssueWriter.ShowsFirstThreeClearDetails | backend/src/issue_template.rs:113-131 | a finding shows its first three distinct details that need no redaction, in order |
| IssueWriter.WalkSplitsUntilItStops | backend/src/issue_template.rs:113-134 | up to where the loop stops, the distinct details are split into those shown and those counted as omitted |
| IssueWriter.Writer.RenderDetails | backend/src/issue_template.rs:110-131 | the loop with its seen list, its skip and its break renders exactly that walk |
| IssueWriter.DistinctAreFirsts | backend/src/issue_template.rs:113-117 | the different details stand in the order of their first occurrences |
| IssueContent.BodyReads | backend/src/issue_template.rs:73-206 | before the footer the body reads: under each heading that section's own values, in order, up to its limit, each shown unless the policy redacts it, with the number of those left out |
| IssueContent.PublishedReads | backend/src/issue_template.rs:73-206 | what is published is that text and the footer, if both have at most 65,536 bytes; else as many whole characters as fit, a closing fence if one is open, the notice and the footer |
| IssueContent.RenderIssueBody | backend/src/issue_template.rs:73-206 | the renderer writes that text of a policy that redacts exactly what must be redacted |
| IssueContent.ScannedInOrder | backend/src/issue_template.rs:326-384 | what is scanned for split credentials are the values in the order in which title and body show them, up to the same limits, and every detail of a finding |
| IssueContent.FragmentsAreOpaque | backend/src/issue_template.rs:415-420 | the fields whose neighbours are joined are those a single text would read as one opaque run |
| IssueContent.DecimalReads | backend/src/issue_template.rs:73-206 | numbers read as themselves |
| IssueCap.FencedHasTwoFences | backend/src/issue_template.rs:957-970 | a fenced detail adds exactly two fences whatever the customer wrote |
| IssueCap.RenderedFences | backend/src/issue_template.rs:73-206 | before the footer a body has two fences for each fenced text and no other |
| IssueCap.CapBody | backend/src/issue_template.rs:995-1017 | the cut with its step back to a character boundary computes the capped body |
| IssueCap.CutIsLongest | backend/src/issue_template.rs:1003-1008 | what is kept is the longest run of whole characters that leaves room for the notice and a closing fence |
| IssueCap.CappedFitsIff | backend/src/issue_template.rs:995-1017 | the result keeps 65,536 bytes exactly when the body or the notice with its footer fits |
| IssueCap.CappedFencesFollowFooter | backend/src/issue_template.rs:1009-1014 | cutting never unbalances a body: its fences are even exactly when the footer's are |
| IssueCap.FooterSurvives | backend/src/issue_template.rs:995-1017 | a body that ends with the footer still does when it is cut |
| IssueCap.FooterFences | backend/src/issue_template.rs:988-993 | the footer has no fences but its link's |
| TextReadings.LinksRead | backend/src/issue_template.rs:972-986 | a link loses its parentheses and spaces, and without any it is cut behind 2,048 characters |
| IssueCap.PublishedBodyIsSound | backend/src/issue_template.rs:73-206 | every published body ends with its footer, has at most 65,536 bytes for every group key of at most 28,000 bytes, and is balanced exactly when its link is, so always without a backquote in the link |
| Utf8.CharsWithinIsLongest | backend/src/issue_template.rs:1004-1007 | the characters kept fit into the bytes given, and one more would not |
| Utf8.WidthIs | backend/src/issue_template.rs:995-1008 | the bytes of a character are those of UTF-8 |
| PinnedContent.LinedJoin | backend/src/github.rs:1301-1303 | normalising a join: a CRLF pair closed by the join gives one line feed |
| PinnedContent.LinedReads | backend/src/github.rs:1301-1303 | up to its first carriage return a text stays; alone or before a line feed that becomes one line feed |
| PinnedContent.LineOfCounts | backend/src/github.rs:1305-1325 | the line of a character is one more than the line feeds before it |
| PinnedContent.ContainsFragmentIff | backend/src/github.rs:1288-1303 | the three-step test is true exactly when the fragment is not empty and is in the content up to line endings |
| PinnedContent.LocatedIff | backend/src/github.rs:1258-1286 | a range is reported exactly when the fragment occurs once, and it is the lines of the first and last matched characters |
| PinnedContent.LocatedLinesAreOrdered | backend/src/github.rs:1258-1325 | 1 <= start <= end <= number of lines |
| PinnedContent.VerifiedIff | backend/src/github.rs:181-199 | a candidate is kept exactly when it has no fragment or its fragment is in the file up to line endings; it then has exactly the lines of the matched characters, when the fragment occurs literally and once, and no lines otherwise |
| RankedLists.SortedIsUnique | backend/src/code_match.rs:217-218 | lists sorted by the whole key with the same entries are equal, so any sort gives the same |
| RankedLists.TopDistinctAreTheBest | backend/src/code_match.rs:217-224 | sorting, keeping the first of each key and cutting gives the best of each key, and leaves out only what comes after all kept |
| RankedLists.KeepFirstOfEach | backend/src/code_match.rs:219-223 | the pass with a set of seen keys keeps the first of each, up to the limit |
| Identifiers.SplitIdentifier | backend/src/code_match.rs:367-384 | the loop over segments and boundaries computes the words of an identifier |
| Identifiers.PartsRebuildTheIdentifier | backend/src/code_match.rs:367-384 | the words put together are the identifier in lower case without underscores |
| Identifiers.PartsAreWhole | backend/src/code_match.rs:367-384 | every word is non-empty, and splitting it again gives it alone |
| CodeSeeds.UnderscoresPart | backend/src/code_match.rs:367-384 | an underscore parts two words |
| CodeSeeds.IdentifiersAreCut | backend/src/code_match.rs:367-384 | without underscores an identifier is cut exactly before the capitals behind or in front of a small letter, each piece in lower case |
| CodeSeeds.LowercaseIs | backend/src/code_match.rs:376-381 | lower case moves the capitals by 32 and leaves the rest |
| CodeMatch.Seeds.AddRun | backend/src/code_match.rs:322-345 | one identifier adds its exact seed and one seed for each useful word |
| CodeSeeds.FieldSeeds | backend/src/code_match.rs:322-365 | a field's seeds, identifier by identifier of 3 to 80 characters not all digits: the identifier itself at 200 and its bonuses when it has two words and a useful one, and each useful word at 100 and its bonuses |
| CodeSeeds.ReportSeeds | backend/src/code_match.rs:204-216 | a report's seeds, in order: operation, runtime hint, topic and kind of each finding, surface |
| CodeMatch.DeriveSearchQueries | backend/src/code_match.rs:204-228 | the queries are the best five distinct seeds of all fields |
| CodeMatch.QueriesAreTheBestSeeds | backend/src/code_match.rs:217-228 | at most five queries with distinct literals, most specific first, each the best and earliest seed of its literal, and no seed left out comes before one |
| CodeMatch.RankedIsTheKeySort | backend/src/code_match.rs:251-263 | any sort by specificity, query order and result order gives the ranking |
| CodeMatch.EntriesAreTheCandidates | backend/src/code_match.rs:230-250 | what is ranked are all the candidates found, each with its query's specificity and reason and their places |
| CodeMatch.HintsAreTheBestEntries | backend/src/code_match.rs:230-296 | the hints are the best twelve verified candidates, one for each file and stored range, by specificity, query and result order, each with its file, reason and range from line 1 on; none left out comes before one of them |
| CodeMatch.StoredRangesAreOrdered | backend/src/code_match.rs:273-279 | at most twelve hints, every stored range has 1 <= start <= end |
| CodeMatch.RankingIgnoresSettling | backend/src/code_match.rs:230-320 | ranking after settling equals ranking before |
| CodeMatch.SettlingConserves | backend/src/code_match.rs:298-320 | dropped and kept candidates together are the candidates seen |
| CodeMatchSettlement.SettleFileNotFound | backend/src/code_match.rs:298-320 | the filter with its saturating counter keeps the verified and counts the rest |
| CodeMatchResumption.InterruptionsNeverShow | backend/src/main.rs:1930-2052 | however an attempt breaks off, going on with what it stored gives what one uninterrupted attempt gives |
| CodeMatchResumption.ResumingAccounts | backend/src/main.rs:2015-2047 | after any attempt the candidates seen are those dropped and those resolved, and with those pending they are all there were |
| CodeMatchResumption.Resolution.ResolvePending | backend/src/main.rs:1940-2052 | the loop over files, queries and candidates computes the attempt and says whether anything is left |
| CodeMatchVerdicts.ResolvedAreTheVerdicts | backend/src/main.rs:1941-2052 | an uninterrupted resolution holds for every query the verdict on each of its candidates, file after file in the order of the files' first candidates |
| CodeMatchResumption.Resolve | backend/src/main.rs:1655-1690 | once an attempt completes, the hints are those of an uninterrupted attempt, and the reported counts say how many candidates were kept as verified and partition all of them, up to the width of the report; an attempt that is not interrupted completes |
| CustomerProfile.TakeInActivity | backend/src/customer_profile.rs:76-115 | one activity updates the description of the facts stated so far, each of its facts once |
| CustomerProfile.Accumulate | backend/src/customer_profile.rs:74-116 | the pass agrees with the definition: count, sessions, first and last time, and the first three sessions as evidence |
| CustomerProfile.DeriveProfile | backend/src/customer_profile.rs:61-154 | the profile describes the newest 5000 activities |
| CustomerProfile.DescriptionIsUnique | backend/src/customer_profile.rs:74-116 | a list of activities has only one description |
| FactScopes.ScopeIs | backend/src/customer_profile.rs:212-238 | a fact whose key ends in `household` or `pets` is the customer's; any other is about its item, else about the customer journey, else about the session |
| FactScopes.ObservedIffStated | backend/src/customer_profile.rs:74-116 | a fact is in the profile exactly when one of the activities considered states it; its sessions are those that do, and its times span them |
| FactScopes.ProfileTells | backend/src/customer_profile.rs:61-73 | the 5,000 newest activities count; the profile says how many there were, whether some were left out, and the newest time of all |
| CustomerProfile.NewestAreConsidered | backend/src/customer_profile.rs:64-73 | no activity left out is newer than one considered |
| FactEvidence.FactHasNewestEvidence | backend/src/customer_profile.rs:97-113 | the evidence of a fact has one entry for each of its sessions, at most three, newest first; none is older than another activity of its session or than any of a session left out |
| ProfileOrder.ProfileIgnoresInputOrder | backend/src/customer_profile.rs:61-154 | the profile is the same for every order of an input whose ties look alike |
| ProfileOrder.OrderNeverShowsIff | backend/src/customer_profile.rs:61-154 | for any kind of activities: their order never shows, whatever list and parser, exactly when those the sort does not tell apart look alike |
| ProfileOrder.OrderCanShow | backend/src/customer_profile.rs:64-70 | two activities of one session under two references at one time make the order show |
| StringOrders.StringLessIff | backend/src/customer_profile.rs:64-70 | the order of texts: at the first difference the smaller character decides, and a beginning comes first |
| CustomerProfile.FormatNumber | backend/src/customer_profile.rs:620-630 | the loop groups the digits by three |
| CustomerProfile.CommasComeEveryFourth | backend/src/customer_profile.rs:620-630 | a comma stands at every fourth place from the end and nowhere else |
| CustomerProfile.CommasOnlyAdded | backend/src/customer_profile.rs:620-630 | without its commas a formatted number is its digits |
| CustomerProfile.GroupedReads | backend/src/customer_profile.rs:620-630 | a formatted number reads as the number without its commas |
| ConsentMachine.CustomerKeysMeetIff | examples/customer-context-scenarios/run-matrix.js:20-24 | with no colon in products and accounts, customer keys meet exactly for one product and subject |
| ConsentMachine.SessionKeysMeetIff | examples/customer-context-scenarios/run-matrix.js:26-27 | session keys then meet exactly when reference and session read the same joined up; for references without a colon, exactly when both are equal |
| ConsentMachine.SubjectsMeetIff | examples/customer-context-scenarios/run-matrix.js:20-24 | identities stand for one customer exactly when the references that matter agree, a missing account and "-" counting as one |
| ConsentMachine.DashAccountCollides | examples/customer-context-scenarios/run-matrix.js:21-21 | an account called "-" shares its key with no account |
| ConsentMachine.ColonCollides | examples/customer-context-scenarios/run-matrix.js:26-27 | a colon in a part makes sessions of two visitors one |
| ConsentMachine.AccountColonCollides | examples/customer-context-scenarios/run-matrix.js:20-24 | a colon in an account makes two users one customer |
| ConsentMachine.ProductColonCollides | examples/customer-context-scenarios/run-matrix.js:20-24 | a colon in a product makes two visitors one customer |
| ConsentMachine.CustomerContextStateMachine.Retrieve | examples/customer-context-scenarios/run-matrix.js:69-87 | returns what the caller may see, changes only the trace, and fails without an identity before anything changes |
| ConsentMachine.CustomerContextStateMachine.Share | examples/customer-context-scenarios/run-matrix.js:89-161 | records, elicits, decides, stores or declines as the share step says; without a valid choice it fails after recording the request |
| ConsentMachine.CustomerContextStateMachine.EndSession | examples/customer-context-scenarios/run-matrix.js:163-170 | forgets the session's signals and consent, returns how many signals there were, and fails without an identity before anything changes |
| SharedSignals.SharingShows | examples/customer-context-scenarios/run-matrix.js:89-161 | the choice in force, an earlier one before a later one, is on record from then on; what the caller is shown is then, key by key, the last acceptable signal, kept for the customer or for the session as the choice says, and nothing new after a refusal or without a choice |
| SharedSignals.SharingAnswers | examples/customer-context-scenarios/run-matrix.js:121-161 | the answer lists every signal, in order, as accepted, with where it came from, or rejected, and says whether the user was asked and for how long the signals are kept |
| SharedSignals.SharingRecords | examples/customer-context-scenarios/run-matrix.js:89-158 | the trace grows by exactly the events of the call, with the numbers of acceptable and other signals |
| SharedSignals.OthersRecord | examples/customer-context-scenarios/run-matrix.js:69-87 | retrieving records what the caller may do and changes nothing shown; ending a session records how many signals it removed |
| SharedSignals.ChoicesReachOtherSessions | examples/customer-context-scenarios/run-matrix.js:101-112 | a first choice holds in the customer's other sessions unless it was for this session only; what they stored and chose is not touched |
| SharedSignals.KeysRead | examples/customer-context-scenarios/run-matrix.js:20-27 | how customer and session keys are written |
| ConsentMachine.RunsKeepInv | examples/customer-context-scenarios/run-matrix.js:48-171 | over all runs customer signals exist only under `always_allow`, session signals only under a live `this_session_only`, all of them valid, and the trace is numbered without gaps |
| ConsentMachine.CustomerChoiceIsPermanent | examples/customer-context-scenarios/run-matrix.js:101-112 | a recorded customer choice is never changed or lost |
| ConsentMachine.DeclinedStaysEmpty | examples/customer-context-scenarios/run-matrix.js:121-124 | a customer who ever declined has no customer signals at any time |
| ConsentMachine.EndingClearsTheSession | examples/customer-context-scenarios/run-matrix.js:163-170 | ending a session leaves none of its signals or consent and keeps the customer's |
| ConsentMachine.OthersNeverInterfere | examples/customer-context-scenarios/run-matrix.js:20-87 | no number of steps by callers with other keys changes what a customer is shown |
| ConsentMachine.InterferesIff | examples/customer-context-scenarios/run-matrix.js:20-170 | some step of a caller in some reachable state changes what another is shown if and only if they share a customer key or a session key |
| ConsentMachine.OnlyTheSameCustomerInterferes | examples/customer-context-scenarios/run-matrix.js:20-170 | for callers without colons that means the same product and customer |
| ConsentMachine.SessionGrantOutlivesRefusal | examples/customer-context-scenarios/run-matrix.js:63-67 | a session's own grant outlives a refusal in another session |
| ConsentWarmer.ConsentCache.Cached | examples/setup-matrix-manual-http/server.py:76-84 | reading the cache returns a live entry or drops an expired one |
| ConsentWarmer.ConsentCache.TryClaim | examples/setup-matrix-manual-http/server.py:123-128 | a lookup is claimed exactly when none is in flight for the subject and a slot is free |
| ConsentWarmer.ConsentCache.StoreResponse | examples/setup-matrix-manual-http/server.py:101-112 | only a consistent decided answer is cached, as `StoreAnswer` says; that it is cached as it was given is `AnsweredConsents.ReceiveCaches` |
| ConsentWarmer.SlotsAlwaysBalance | examples/setup-matrix-manual-http/server.py:117-144 | in every interleaving free slots and subjects in flight make eight whenever the lock is free |
| ConsentWarmer.OneLookupPerSubject | examples/setup-matrix-manual-http/server.py:123-128 | no subject has two lookups in flight |
| ConsentWarmer.LookupStartsIff | examples/setup-matrix-manual-http/server.py:123-128 | over all runs a lookup starts exactly when no thread holds one for the subject and fewer than eight are in flight |
| ConsentWarmer.LookupsAreForMissing | examples/setup-matrix-manual-http/server.py:120-133 | a thread that finds an unexpired entry at either check goes no further |
| ConsentWarmer.EverySlotComesBack | examples/setup-matrix-manual-http/server.py:130-144 | when no lookup is under way every slot is back, also after a thread that failed to start |
| ConsentWarmer.HoldersMakeProgress | examples/setup-matrix-manual-http/server.py:130-144 | each step of a holder brings it nearer to its single release |
| ConsentWarmer.AcceptedHasRevision | examples/setup-matrix-manual-http/server.py:101-108 | an answer is worth caching exactly when it is approved or declined with a revision of at least one, and then with its own verdict and revision |
| ConsentWarmer.ReadyMeansApproved | examples/setup-matrix-manual-http/server.py:146-188 | an ask-once `feedback_ready` envelope means an unexpired approved entry with a revision was read |
| AnsweredConsents.ReceiveCaches | examples/setup-matrix-manual-http/server.py:101-112 | an approved or declined answer with a positive revision is cached with that verdict and revision until its time is up; any other leaves the cache alone |
| AnsweredConsents.EntriesAreAnswers | examples/setup-matrix-manual-http/server.py:101-112 | over all behaviours every cached entry is what the server answered to an earlier lookup of its subject: verdict, revision and expiry |
| AnsweredConsents.AnswersAreRemembered | examples/setup-matrix-manual-http/server.py:71-112 | from the answer on the entry stands in the cache until it expires, whatever else happens |
| AnsweredConsents.PrepareReads | examples/setup-matrix-manual-http/server.py:71-84 | preparing an envelope reads the subject's entry unless it has expired |
| AnsweredConsents.EnvelopesFollowTheServer | examples/setup-matrix-manual-http/server.py:146-188 | over all behaviours an ask-once `feedback_ready` envelope follows an answer approved, no envelope follows one declined, both still good when read, and the question is put exactly when no unexpired answer was read |
| AnsweredConsents.EnvelopeTable | examples/setup-matrix-manual-http/server.py:182-188 | the envelope for every mode and every read |
| ConsentWarmer.RevisionIsMissedIff | examples/setup-matrix-manual-http/server.py:146-163 | the claims say revision zero exactly when no entry was live at the second read, and the approved revision whenever the entry read first had not expired |
| ConsentWarmer.RevisionMayBeMissed | examples/setup-matrix-manual-http/server.py:156-163 | a run from the empty cache in which a `feedback_ready` envelope claims revision zero |
| FeaturePages.DashboardFeaturesPage | backend/src/customer_features.rs:405-426 | fetching one row more than asked for gives the page and the right cursor |
| FeaturePages.PageIs | backend/src/customer_features.rs:397-426 | for every cursor: an unreadable one is refused; else the page is the first rows below it, with a cursor to the last of them exactly when there are more |
| FeaturePages.LimitIs | backend/src/customer_features.rs:405-405 | fifty features unless asked otherwise, at least one and at most a hundred |
| FeaturePages.BelowAre | backend/src/customer_features.rs:376-378 | the rows below a cursor are, in order, the older ones and those of its time with a smaller key |
| FeaturePages.CursorSelectsTheRest | backend/src/customer_features.rs:376-378 | the cursor of a row selects exactly the rows after it |
| FeaturePages.FollowingVisitsAll | backend/src/customer_features.rs:397-426 | for any stored features, following the cursors visits every one once, newest first, in full pages but for the last, whatever the limit |
| FeaturePages.FollowingEnds | backend/src/customer_features.rs:397-426 | following the cursors ends without an error |

## Left out

* HTTP, PostgreSQL and Tokio plumbing, connection tests, row mapping and the product and environment slugs joined into exported records: tables are maps, transactions are steps, a sink is an upsert map by stream and id.
* Sealing of credentials, HMAC and SHA-256, and the Shannon entropy test: the first are not part of this model, the last is a predicate.
* The pattern lists, URL reading and JSON and base64 libraries of the detector: predicates and functions with the length assumptions above; secret shapes inside URL path segments are part of the pattern predicate.
* Years are written as they are; the source pads one of fewer than four digits.
* The wording of the title; of its parts the three values it shows are modelled.
* The outcome a finished code-match job is stored under, and search candidates without a fragment, which are dropped before any file is read.
* The e-mail, bearer and access-key tests of the report scan: in `PublicationMarks` only its list of marks is modelled.
* How redacted strings reach the detector as bytes: redaction works over any predicate on strings.
* Reasons and search expressions of queries are kept as data, not as rendered sentences, and stop words are a parameter.
* The vocabulary of operation tokens and the number width of counts.
* Facets, rollups and filters of the features page; only its rows and cursors are modelled.
* The wording of envelopes, telemetry queues and token signing of the manual HTTP example.
- ExportEngine.Store.ExportDestination: the 8-minute timeout and a crash are not in the method; they are steps of the system that may fall between any two.
- ConsentMachine.CustomerContextStateMachine.Retrieve: gives the customer's and the session's signals as two maps; the source lists them together, ordered by `localeCompare`, and repeats keys and operation in the event.
- ConsentMachine.CustomerContextStateMachine.Share: the event keeps how many signals were accepted and rejected, not their keys and provenance.
- CustomerProfile.DeriveProfile: gives the facts as a map; the source lists them by time, sessions, key and value.
