# Workflow helper: verified model

A model in Dafny 4.11 of the transactional protocols, validators and encoders of the workflow helper,
with proofs about all their runs and all their inputs. `dafny verify dfyconfig.toml` checks all of it.

Every store method of the repository runs in one immediate transaction. Here each store is a class whose
fields are the tables and logs. Each method follows the source's steps, with its rollbacks, and its contract
equates result and whole new state with a function of the old state. The properties are then lemmas about
these functions and about runs of them, of any length and, where calls have several steps, in any interleaving.
Times are integer microseconds (100-nanosecond ticks in the capture agent), every clock reading is an argument,
and nothing is assumed of clocks unless a lemma says so. Calls into collaborators may fail at every await.

## Modules

| module | what it models |
|---|---|
| `Basics`, `Decimals` | optional values, outcomes, text tests, decimal texts |
| `ScopedKeys`, `AuditLog` | length-prefixed scoped keys and their reader; the scoped audit queries |
| `ControlLeases`, `LeaseHistory`, `LeaseAnswers` | job leases with fencing tokens; the log they are a fold of; what each call answers and writes |
| `CandidateReview`, `CandidateReviewStore`, `CandidateReviewAnswers`, `CandidateReviewWitness` | the review validator; the guarded writer and their agreement; what requests are admitted, answered and recorded; the failures on concrete requests |
| `SortedByName`, `RestrictedJcs`, `JcsRoundTrip`, `JcsOrder`, `JobPayload`, `JobText` | key order, canonical serializer, its reader, its text by code units; digest preimage of a job and its whole text |
| `Publication`, `PublicationFencing`, `PublicationIdentity`, `PublicationService` | reserve and finalize; what interleaved publishers keep; what a row is stored under and how a review names it; the client |
| `Discovery`, `DiscoveryScan`, `DiscoveryLists` | pages of a table; the batched scan and the service's paging loop over a state that changes between reads; what their lists amount to |
| `DatasetApproval`, `DatasetSafety`, `DatasetStatus`, `DatasetAnswers` | dual approval step by step; every interleaving of it among posted reviews; what ends an approved status; what a call answers |
| `BrowserSessions`, `BrowserSessionLife`, `BrowserSessionAnswers` | browser sessions; digests, versions and lifetimes over runs; what each call answers and writes |
| `SessionStores`, `SessionSimulation`, `SessionAnswers` | the in-memory reference and the durable store; the simulation; one session's life in both |
| `CaptureSessions`, `CaptureCoordinator`, `CoordinatorRuns`, `CoordinatorAnswers` | active time; the coordinator; its runs with failures; what each tick does |
| `Retention`, `RetentionHistory`, `RetentionAnswers` | the retention ledger; what its runs and its log keep; what each request answers and writes |
| `Segments`, `SegmentRules`, `RunDerivation` | the two segment validators; their global meaning; run derivation |
| `Base64Url` | canonical tokens of session and CSRF material |

## Where the code differs from what one might expect

- `_unqualify` accepts lengths with leading zeros, so it undoes `_qualify` on every key, while `_qualify` undoes it only for keys without a leading zero, an admitted kind and a bounded identifier (`ScopedKeys.QualifyOfUnqualify`).
- The cap on active leases holds for clocks that never go back. Otherwise a heartbeat read at an earlier time can revive an expired lease beyond a full bound; the guards under which a call does so are exact (`ControlLeases.CapBrokenExactly`, `ControlLeases.OnlyHeartbeatBreaksCap`).
- The candidate writer accepts a qualified key of more than 512 characters and an older approval payload after a pending event; both make the target unreadable (`CandidateReviewWitness.UnreadableExamples`). The service's own bound excludes the first (`CandidateReviewStore.PublicKeysFit`).
- In publication the uniqueness query on jobs can never find anything (`PublicationFencing.JobHasOneRow`).
- The general review append takes approvals and promotions for a dataset's own target too. A promotion posted there need not rest on two approvals, though no approved state is ever derived without them (`DatasetSafety.EarnedUntil`, `DatasetSafety.ApprovedIsEarned`).
- An approved dataset becomes a manifest conflict exactly when another manifest is posted to it or appended by a call that had read the history before anything was recorded; it never becomes pending again (`DatasetStatus.ApprovedUntil`, `DatasetStatus.LateApprovalReadNothing`).
- The durable session store refuses a shared object key or completion identifier, and a completion for another session; the in-memory one does not (`SessionSimulation.RunsAgreeExactly`, `SessionSimulation.SharedKeyParts`).
- A session whose recorder failed to start stays active and its recorder is not started again (`CoordinatorRuns.FailedStartStillActive`, `CoordinatorRuns.NoStartBeforeUpload`).
- The two segment validators compare identifiers differently, as parsed values and as text, and so each accepts some documents that the other refuses (`SegmentRules.ValidatorsAgree`, `SegmentRules.TwoSpellingsDisagree`).

## Model

| member | source | states |
|---|---|---|
| ScopedKeys.UnqualifyOfQualify | apps/api/src/workflow_api/control_scope.py:41-75 | reading a qualified key in its own scope and kind gives back the public identifier |
| ScopedKeys.UnqualifyExactly | apps/api/src/workflow_api/control_scope.py:60-94 | the reader accepts exactly the scope prefix followed by two segments whose length texts may carry leading zeros; the printers write the unpadded ones only |
| ScopedKeys.QualifyOfUnqualify | apps/api/src/workflow_api/control_scope.py:46-94 | when printing undoes reading: for a key that the reader accepts, exactly if the printer admits the kind and the identifier and neither length text starts with a zero |
| ScopedKeys.UnqualifyAcceptsPaddedKey | apps/api/src/workflow_api/control_scope.py:82-94 | a concrete key that the printers never write and the reader accepts, so reading is a left inverse of printing and not a right one |
| ScopedKeys.QualifyInjective | apps/api/src/workflow_api/control_scope.py:41-57 | a qualified key determines scope, kind and identifier, without delimiter ambiguity |
| ScopedKeys.ScopePrefixSelects | apps/api/src/workflow_api/control_scope.py:36-38 | a scope's prefix is a prefix of a qualified key exactly when the key is of that scope |
| ScopedKeys.KindPrefixSelects | apps/api/src/workflow_api/control_scope.py:54-57 | a kind prefix is a prefix of a qualified key exactly when both scope and kind are the same |
| ScopedKeys.ValidScopeKeyIsImage | apps/api/src/workflow_api/control_store.py:1434-1457 | the store's separate scope-key check accepts exactly the texts that the scope printer writes |
| ScopedKeys.KeyVector | apps/api/src/workflow_api/control_scope.py:36-57 | one qualified key in full: version, then tenant, workspace, kind and identifier, each after its length and a colon |
| AuditLog.ScopedIsOneScope | apps/api/src/workflow_api/control_store.py:1126-1152 | over a table of qualified targets, the prefix filter returns exactly the events of one scope and kind |
| AuditLog.CountIsPosition | apps/api/src/workflow_api/control_store.py:1154-1188 | counting a scope's rows up to an event gives the event's position in the scope's listing |
| AuditLog.ListAndGetAgree | apps/api/src/workflow_api/control_store.py:1126-1188 | an event is read under number n exactly when the page of length one after n - 1 shows that event: both queries number alike |
| AuditLog.PagesConcatenate | apps/api/src/workflow_api/control_store.py:1126-1152 | two successive pages are one longer page: nothing is repeated or skipped |
| AuditLog.PageIs | apps/api/src/workflow_api/control_store.py:1126-1152 | a page holds a row of the scope under a number exactly when so many rows of the scope go up to it in commit order and the number is past the cursor and within the limit |
| AuditLog.PageCounts | apps/api/src/workflow_api/control_store.py:1126-1152 | a page is numbered upwards from the cursor without a gap, within the limit |
| ControlLeases.ControlStore.RegisterJob | apps/api/src/workflow_api/control_store.py:312-345 | result and whole new state of a registration, idempotent on an equal digest, rolled back when its audit record is refused |
| ControlLeases.ControlStore.AcquireLease | apps/api/src/workflow_api/control_store.py:356-423 | result and whole new state of an acquisition: idempotent for the current owner, bounded by the active count, token and attempt raised by one |
| ControlLeases.ControlStore.HeartbeatLease | apps/api/src/workflow_api/control_store.py:425-459 | result and whole new state of a heartbeat by the current lease, stale otherwise |
| ControlLeases.ControlStore.CompleteLease | apps/api/src/workflow_api/control_store.py:461-511 | result and whole new state of a completion, with the exact replay and conflict cases |
| ControlLeases.ActiveLeaseCap | apps/api/src/workflow_api/control_store.py:371-423 | in every run with a clock that never goes back, at the last call's time and at every later time at most the configured number of leases is active, although heartbeats never recount |
| ControlLeases.StepKeepsCap | apps/api/src/workflow_api/control_store.py:371-459 | from a bounded state one call of any kind keeps the bound at its own time and all later times |
| ControlLeases.CapBrokenExactly | apps/api/src/workflow_api/control_store.py:356-459 | with arbitrary clocks, a call exceeds the bound at a time exactly when the bound was full there and the call is a heartbeat or an acquisition that meets all of its guards at its own reading, for a job not counted there, with an expiry past that time |
| ControlLeases.OnlyHeartbeatBreaksCap | apps/api/src/workflow_api/control_store.py:425-459 | at the call's own time and all later ones the bound is exceeded exactly by such a heartbeat, never by an acquisition |
| ControlLeases.BackwardClockBreaksCap | apps/api/src/workflow_api/control_store.py:437-459 | a concrete run in which an earlier clock reading revives an expired lease and two leases are active under a bound of one |
| LeaseHistory.RunRefinesLog | apps/api/src/workflow_api/control_store.py:356-511 | in every run each job row is the fold of that job's log entries, and these form a legal history |
| LeaseHistory.TokensCountAcquisitions | apps/api/src/workflow_api/control_store.py:395-423 | the n-th acquisition carries token and attempt n, and heartbeats and completions carry the latest token |
| LeaseHistory.CompletionIsLast | apps/api/src/workflow_api/control_store.py:461-511 | a completion is the last entry of a job's history, so there is at most one |
| LeaseHistory.TakeoverWaitsForExpiry | apps/api/src/workflow_api/control_store.py:371-388 | every reacquisition happens at or after the last expiry that was promised |
| LeaseHistory.SupersededLeaseIsFenced | apps/api/src/workflow_api/control_store.py:1224-1233 | a lease with an older token can never heartbeat or complete again, whatever follows |
| LeaseHistory.CompletionIsImmutable | apps/api/src/workflow_api/control_store.py:461-511 | after a completion the row and its log never change, and completing again succeeds exactly for the same lease, key and digest |
| LeaseHistory.GrantedTokenIsFresh | apps/api/src/workflow_api/control_store.py:395-423 | a newly granted token exceeds every token in the job's history |
| LeaseAnswers.RegistrationAnswers | apps/api/src/workflow_api/control_store.py:312-345 | a first registration is kept as a queued job without a lease, which the same digest finds again and any other digest conflicts with |
| LeaseAnswers.AcquisitionAnswers | apps/api/src/workflow_api/control_store.py:356-423 | who gets a lease: its live owner the same one again, nobody else while it lives or once the job is complete, and otherwise anyone while fewer than the bound live, with token and attempt one higher and the expiry that many seconds on |
| LeaseAnswers.LeaseHolds | apps/api/src/workflow_api/control_store.py:1224-1233 | a lease can be extended and completed exactly before its expiry, and until then no other owner gets the job |
| LeaseAnswers.HeartbeatAnswers | apps/api/src/workflow_api/control_store.py:425-459 | a heartbeat is granted only on a live lease with the same owner, token and attempt, and moves its expiry, and nothing else but the entry and the times, to that many seconds from now |
| LeaseAnswers.CompletionAnswers | apps/api/src/workflow_api/control_store.py:461-511 | a first completion answers with the call's own job, key, digest, token and time, and the row and the log entry carry them |
| LeaseAnswers.CompletionStands | apps/api/src/workflow_api/control_store.py:472-511 | after any further run the same lease with the call's own key and digest gets that very completion and changes nothing but admitted evidence, and any other key or digest conflicts |
| LeaseAnswers.LeaseRefusals | apps/api/src/workflow_api/control_store.py:425-511 | why a heartbeat or a completion is refused, reason by reason: arguments, no such job, stale lease, conflict, evidence; a refusal changes nothing and all else succeeds |
| LeaseAnswers.ArgumentRefusals | apps/api/src/workflow_api/control_store.py:312-423 | which arguments a registration and an acquisition refuse, and that unadmitted evidence rolls both back |
| CandidateReview.ValidateProjection | apps/api/src/workflow_api/control_store.py:1676-1889 | the validator's single pass equals the verdict defined event by event: target, identifier, digest, transition, then lifecycle bindings or the older approval shape, then the projection's mirror; `CandidateReviewAnswers.AcceptedStatuses` lists the histories that it lets through |
| CandidateReviewStore.ReviewStore.AppendCandidateReviewEvent | apps/api/src/workflow_api/control_store.py:630-951 | result and whole new state of one guarded append: admission, retry, prior check, transition, payload, insert and projection in one transaction; `CandidateReviewAnswers.AppendAnswers` says which requests it stores and what it records |
| CandidateReviewStore.ReviewStore.AppendReviewEvent | apps/api/src/workflow_api/control_store.py:513-628 | result and whole new state of an ordinary review append, which refuses candidate targets |
| CandidateReviewStore.ReviewStore.GetCandidateProjection | apps/api/src/workflow_api/control_store.py:968-992 | a projection is returned exactly when the whole stored history passes the validator |
| CandidateReviewStore.WriterMeetsValidator | apps/api/src/workflow_api/control_store.py:755-951 | every appended event leaves its history acceptable if and only if its qualified key fits 512 characters or, for an older payload, it is the target's first event, approved, in the exact shape, or carries lifecycle members and equals the lifecycle payload of this very request in every member that one has, but for reason, evidence, two digests and a null key |
| CandidateReviewStore.BoundMeans | apps/api/src/workflow_api/control_store.py:1762-1889 | the validator's bindings hold of an older payload exactly when it equals the request's own lifecycle payload up to those members: scope and target follow from the qualified target alone |
| CandidateReviewStore.ReviewedTargets | apps/api/src/workflow_api/control_store.py:755-1889 | in every run of such appends, mixed with ordinary reviews, each candidate target has one or two legal transitions that the validator accepts, and its projection is the last event with the event count as version |
| CandidateReviewStore.AcceptedHistoryIsLegal | apps/api/src/workflow_api/control_store.py:1666-1759 | whatever is stored, an accepted history is a legal path from unreviewed of at most two events with true digests |
| CandidateReviewStore.IntactProjection | apps/api/src/workflow_api/control_store.py:1676-1759 | an accepted projection repeats its last event and counts its events |
| CandidateReviewStore.ExactRetry | apps/api/src/workflow_api/control_store.py:755-812 | the same request later returns the stored event and changes nothing, even with prior, evidence or time left open, as long as the history is still intact |
| CandidateReviewStore.CandidateKeyReadsBack | apps/api/src/workflow_api/control_store.py:1466-1498 | a qualified key reads back as itself exactly when it fits the validator's length bound |
| CandidateReviewStore.PublicKeysFit | apps/api/src/workflow_api/control_service.py:887-919 | a public key within the service's 256-character bound always qualifies to one within 512 characters |
| CandidateReviewAnswers.AdmittedExactly | apps/api/src/workflow_api/control_store.py:675-753 | a request is admitted exactly when its scope key is valid, its key admissible, one UUID is the skill of target, publication key and given identifier, the target ends in the content digest, and reviewer, status, version, reason, evidence and older payload are well-formed |
| CandidateReviewAnswers.AppendAnswers | apps/api/src/workflow_api/control_store.py:755-951 | with intact histories, a request under a new key is stored exactly when every member of the prior that it gives is that of the last event and the step is one of the five from unreviewed to pending or approved and from pending to approved, rejected or needs changes; the event records actor, status, time, prior, digests and names of this request, and the projection follows it; otherwise it is a conflict that changes nothing |
| CandidateReviewAnswers.AcceptedStatuses | apps/api/src/workflow_api/control_store.py:1666-1759 | the statuses of an accepted history are pending, approved, or pending followed by approved, rejected or needs changes, and no others |
| CandidateReviewAnswers.RetryAnswers | apps/api/src/workflow_api/control_store.py:755-812 | in any later state a stored key returns its event exactly for a request with the same scope, target, actor, status and digests whose given prior, reason, evidence and time are the recorded ones; every other request under it is refused, and nothing changes |
| CandidateReviewAnswers.KeyAnswers | apps/api/src/workflow_api/control_store.py:1466-1498 | a complete key of the scope's own namespace is used as it is, a plain one is placed behind that namespace and its length, a qualified one from elsewhere or two different ones conflict |
| CandidateReviewAnswers.OrdinaryAnswers | apps/api/src/workflow_api/control_store.py:513-628 | an ordinary review under a new key is stored column by column as it was given, with its target's projection counting it |
| CandidateReviewAnswers.OrdinaryReplays | apps/api/src/workflow_api/control_store.py:558-573 | a stored key returns its event exactly for the same target, actor, status, provenance and detail, conflicts otherwise, and stores nothing |
| CandidateReviewStore.LongKeyIsWrittenButUnreadable | apps/api/src/workflow_api/control_store.py:1466-1498 | a longer key is written all the same, and the target can then no longer be read |
| CandidateReviewStore.LegacyAfterPendingIsUnreadable | apps/api/src/workflow_api/control_store.py:1892-1933 | the older approval payload after a pending event is written, and the target can then no longer be read |
| CandidateReviewWitness.LongKeyMakesUnreadable | apps/api/src/workflow_api/control_store.py:630-951 | from an empty store, for every candidate, scope and reviewer, a first review under a key of 500 characters is stored and the target becomes unreadable |
| CandidateReviewWitness.LegacyMakesUnreadable | apps/api/src/workflow_api/control_store.py:630-951 | from an empty store, for every candidate, scope and reviewer, a pending review is stored and readable, and the older approval payload after it is stored and makes the target unreadable |
| CandidateReviewWitness.FirstLegacyIsReadable | apps/api/src/workflow_api/control_store.py:1892-1933 | from an empty store, for every candidate, scope and reviewer, the older approval payload as first event is stored and the target can be read |
| CandidateReviewWitness.UnreadableExamples | apps/api/src/workflow_api/control_store.py:630-951 | both failures on one concrete candidate, scope and reviewer |
| RestrictedJcs.QuoteString | apps/api/src/workflow_api/processing_job_v2_identity.py:130-142 | the loop over characters yields the quoted text with its short and hexadecimal escapes, and refuses lone surrogates |
| RestrictedJcs.Serialize | apps/api/src/workflow_api/processing_job_v2_identity.py:149-164 | the serializer yields the canonical text of every admissible value and refuses every other value; `JcsOrder` says what that text is |
| JcsRoundTrip.RoundTrip | apps/api/src/workflow_api/processing_job_v2_identity.py:149-164 | the text followed by anything, by no digit after an integer, reads back as the value and exactly that rest (sections 3.2.2.2 and 3.2.3 of RFC 8785) |
| JcsRoundTrip.TextIsCanonical | apps/api/src/workflow_api/processing_job_v2_identity.py:145-164 | two values have equal text exactly when they have equal contents, whatever the insertion order of their dictionaries |
| JcsOrder.KeysAscend | apps/api/src/workflow_api/processing_job_v2_identity.py:145-162 | the text of a dictionary is the brace-enclosed, comma-joined members of a permutation of its entries in which, for any two names, the UTF-16 code units of the earlier are a proper prefix of the later's or smaller where they first differ (section 3.2.3 of RFC 8785) |
| JcsOrder.TextOfAscending | apps/api/src/workflow_api/processing_job_v2_identity.py:156-162 | there is one such order: whoever writes the same members with ascending names writes this text |
| JcsOrder.EscapesExactly | apps/api/src/workflow_api/processing_job_v2_identity.py:130-142 | every character is printed as itself except the quote, the backslash, five controls with short escapes and the other controls with four hexadecimal digits (section 3.2.2.2 of RFC 8785) |
| JcsOrder.TwoKeys | apps/api/src/workflow_api/processing_job_v2_identity.py:156-162 | the keys b and a are printed with a first |
| JcsOrder.SupplementaryFirst | apps/api/src/workflow_api/processing_job_v2_identity.py:145-146 | a key U+10000 is printed before a key U+FB33: the order is by code units and not by code points |
| SortedByName.Utf16Injective | apps/api/src/workflow_api/processing_job_v2_identity.py:145-146 | texts without surrogates are determined by their UTF-16 big-endian bytes |
| SortedByName.SortFacts | apps/api/src/workflow_api/processing_job_v2_identity.py:156-162 | sorting orders distinct names strictly by UTF-16 bytes and keeps the contents; `JcsOrder.KeysAscend` says the order by code units |
| SortedByName.SortedUnique | apps/api/src/workflow_api/processing_job_v2_identity.py:156-162 | contents determine the sorted list, so there is one order |
| JobPayload.PreimageNamesJob | apps/api/src/workflow_api/processing_job_v2_identity.py:167-198 | two admitted jobs have the same digest preimage exactly when they are the same job |
| JobText.JobTextIs | apps/api/src/workflow_api/processing_job_v2_identity.py:167-198 | the preimage of any admitted job in full: the domain line with its four parts and zero bytes, then one object whose members and artifact members are spelled out in order |
| JobText.Utf8Vectors | apps/api/src/workflow_api/processing_job_v2_identity.py:194-198 | one text with an encoding of each length |
| Publication.PublicationStore.ReserveRow | apps/api/src/workflow_api/candidate_publication_store.py:446-590 | result and whole new table of a reservation: replay of a finalized row, a live lease, a takeover after expiry, or the first reservation; `PublicationIdentity` says what is written and under which names |
| Publication.PublicationStore.CheckAttempt | apps/api/src/workflow_api/candidate_publication_store.py:629-646 | what the check outside the transaction decides |
| Publication.PublicationStore.CommitAttempt | apps/api/src/workflow_api/candidate_publication_store.py:648-693 | result and whole new table of the transactional half, which checks again, refuses an earlier clock and reads the row back |
| Publication.PublicationStore.GetFinalized | apps/api/src/workflow_api/candidate_publication_store.py:698-712 | a finalized row is returned only after full independent readback |
| PublicationFencing.PrepareStable | apps/api/src/workflow_api/candidate_publication_store.py:1182-1231 | stored evidence re-admits to exactly the publication it was stored for, because preparation checks its own printed form |
| PublicationFencing.RunKeepsSound | apps/api/src/workflow_api/candidate_publication_store.py:334-350 | in every interleaved run and under arbitrary clocks every row satisfies the table's constraint, its evidence re-admits to its own identity, and finalized bytes are the reconstructed ones |
| PublicationFencing.NothingReadsCorrupt | apps/api/src/workflow_api/candidate_publication_store.py:814-921 | in such a table no call reports corruption and every finalized row reads back as stored |
| PublicationFencing.FinalizedIsForever | apps/api/src/workflow_api/candidate_publication_store.py:354-390 | a finalized row never changes again |
| PublicationFencing.FinalizedExactlyWhen | apps/api/src/workflow_api/candidate_publication_store.py:648-693 | a row becomes finalized exactly when a commit names its current owner and epoch, between its last update and its expiry, with the reconstructed bytes |
| PublicationFencing.EpochMovesByOne | apps/api/src/workflow_api/candidate_publication_store.py:503-532 | each takeover happens at or after expiry and raises the epoch by exactly one; nothing else moves it |
| PublicationFencing.OvertakenNeverPublishes | apps/api/src/workflow_api/candidate_publication_store.py:994-1005 | a publisher whose epoch was overtaken can never finalize, however long it waits |
| PublicationFencing.CheckedAttemptOutcome | apps/api/src/workflow_api/candidate_publication_store.py:629-693 | after the outer check has passed, whatever others do before the commit, its outcome is determined: the finalized row with these bytes, stale if overtaken, unavailable if the clock had gone back, success otherwise |
| PublicationFencing.JobHasOneRow | apps/api/src/workflow_api/candidate_publication_store.py:541-550 | a job is taken in a scope exactly when its own key is, so the uniqueness query never decides anything |
| PublicationIdentity.RowIsDerived | apps/api/src/workflow_api/candidate_publication_store.py:1182-1231 | in every run each row's evidence loads to an envelope whose derivation it is stored for: job, session, source, both digests, length, review target and publication key are that derivation's, and published bytes are its candidate |
| PublicationIdentity.TargetIsReviewable | apps/api/src/workflow_api/candidate_publication_store.py:1213 | in every run each row's review target is a candidate target of the review side that names the row's job and ends in its content digest |
| PublicationIdentity.RowIsReviewed | apps/api/src/workflow_api/control_store.py:675-753 | in every run a review request that takes target, publication key and digests from a row, and is otherwise well-formed, is admitted as a review of that row's job |
| PublicationIdentity.ReservationAnswers | apps/api/src/workflow_api/candidate_publication_store.py:484-590 | in a sound table, what a reservation answers by its arguments and what its key holds, with every bound written out: invalid, conflict, finalized, still reserved by this or another owner, unavailable, or a new row |
| PublicationIdentity.ReadExactly | apps/api/src/workflow_api/candidate_publication_store.py:814-921 | whatever a table holds, a candidate is read from it exactly if its evidence loads to a publishable envelope whose derivation gives all of its columns and bytes |
| PublicationIdentity.ReservedColumns | apps/api/src/workflow_api/candidate_publication_store.py:484-590 | what a reservation that is obtained writes, column by column, with its expiry that many seconds of a million microseconds after its time |
| PublicationIdentity.PublishedColumns | apps/api/src/workflow_api/candidate_publication_store.py:648-693 | what a publication writes, column by column, and that it is answered |
| PublicationIdentity.CommitAnswers | apps/api/src/workflow_api/candidate_publication_store.py:648-693 | what a commit answers by what its key holds, reason by reason: not found, replay or conflict, stale, conflict, clock gone back, published |
| PublicationIdentity.ReadAnswers | apps/api/src/workflow_api/candidate_publication_store.py:698-712 | a read returns the finalized row, and not found for every other well-formed key |
| PublicationService.CandidatePublicationService.PublishRequest | apps/api/src/workflow_api/candidate_publication_service.py:183-219 | result and whole new table of the client: prepare, reserve at one reading of the clock, finalize at another under the epoch it was given |
| PublicationService.ReserveOutcome | apps/api/src/workflow_api/candidate_publication_store.py:484-590 | in a sound table a reservation's result by what its key holds |
| PublicationService.ReservedAttemptPasses | apps/api/src/workflow_api/candidate_publication_service.py:197-218 | whoever obtained a reservation passes the first check of its finalization exactly while the second reading is before the expiry, and is stale otherwise |
| PublicationService.PublishExactly | apps/api/src/workflow_api/candidate_publication_service.py:183-219 | an uninterrupted request succeeds exactly when its arguments are admitted and its key is free, published for the same evidence, held by the same owner, or expired below the last epoch, and the second reading of the clock is neither before the reservation's last update nor at or past its expiry; it then yields the finalized row with the prepared bytes |
| DiscoveryScan.ScanFinalizedUnreviewed | apps/api/src/workflow_api/candidate_publication_store.py:732-780 | the scan in batches of 100, while rows and reviews change between any two reads: what it returns is in strict order past the cursor, at most the limit, each row read from the table and then shown; no row that is there and shown throughout is missing unless the page is full and ends before it |
| DiscoveryScan.ListFinalizedUnreviewed | apps/api/src/workflow_api/candidate_discovery_service.py:91-131 | the outer loop over such scans: every returned row was read, shown and confirmed by its own reads in this order; strict order, past the cursor, at most the limit; no row that passes all tests throughout is missing unless the list is full and ends before it |
| DiscoveryLists.StillListing | apps/api/src/workflow_api/candidate_discovery_service.py:91-131 | while nothing changes, both return exactly the first rows past the cursor that pass their tests |
| DiscoveryLists.ResumedListing | apps/api/src/workflow_api/candidate_discovery_service.py:76-131 | resuming from the last row of an earlier list, whatever changed since, repeats no row and skips none that passed throughout both calls |
| Discovery.PageIsOrdered | apps/api/src/workflow_api/candidate_publication_store.py:741-780 | a page holds only eligible rows past the cursor, in strict order and so without repetition, at most the limit |
| Discovery.PagesConcatenate | apps/api/src/workflow_api/candidate_publication_store.py:741-780 | resuming from the last returned row gives the rest of the longer page: no row is repeated or skipped |
| Discovery.BeforeMeans | apps/api/src/workflow_api/candidate_publication_store.py:741-780 | the order of the query: earlier finalization first, and at one time the smaller key, character by character |
| DatasetApproval.AllEvents | apps/api/src/workflow_api/dataset_approval.py:123-144 | pages read while the log grows are put together into the complete history as it stood at one moment of the loop |
| DatasetApproval.ReviewService.ApproveDataset | apps/api/src/workflow_api/dataset_approval.py:30-106 | result and whole new log of an uninterrupted call, which makes its reads and appends one after the other; `DatasetAnswers.CallAnswers` says what they are |
| DatasetSafety.StateMeans | apps/api/src/workflow_api/dataset_approval.py:147-174 | the derived state said without lists: nothing recorded, disagreeing manifests, too few reviewers, or a state with exactly the recorded reviewers |
| DatasetSafety.PromotionIsEarned | apps/api/src/workflow_api/dataset_approval.py:66-106 | in every interleaving of any number of calls, among reviews posted to any target, each promotion is preceded in the log by approvals of that same manifest from two distinct reviewers or was itself posted; a call appends none other |
| DatasetSafety.EarnedUntil | apps/api/src/workflow_api/control_service.py:230-264 | a step leaves some promotion of a dataset unearned if and only if it posts one, admitted under a new key, that two approvals of its manifest do not precede |
| DatasetSafety.EarnedOverRuns | apps/api/src/workflow_api/control_service.py:230-264 | over every run all promotions of datasets are earned exactly when no such step was made |
| DatasetSafety.ApprovedIsEarned | apps/api/src/workflow_api/dataset_approval.py:147-174 | whatever was posted, a log from which an approved state is derived holds approvals of its manifest from two distinct reviewers |
| DatasetSafety.DerivedState | apps/api/src/workflow_api/dataset_approval.py:147-174 | once something is recorded, no state is derived exactly when the records disagree on the manifest or a promotion has fewer than two approvers; otherwise it is approved exactly when a promotion is recorded |
| DatasetSafety.ReturnedStateHolds | apps/api/src/workflow_api/dataset_approval.py:45-106 | a state that a call has returned stays borne out by the log, whatever follows: its reviewers approved that manifest, and an approved one rests on two of them and a recorded promotion |
| DatasetSafety.ReachableState | apps/api/src/workflow_api/dataset_approval.py:147-174 | in every run without an unearned posted promotion, no state is derived exactly when the records disagree on the manifest, and every promotion has its two approvers |
| DatasetStatus.ApprovedUntil | apps/api/src/workflow_api/dataset_approval.py:45-106 | an approved status ends with a step if and only if the step is the admitted approval append of a call past its first read, on this dataset, with another manifest, or an admitted post of an approval or promotion of another manifest to the dataset; it then is a conflict, and every other step leaves it approved |
| DatasetStatus.ApprovedOverRuns | apps/api/src/workflow_api/dataset_approval.py:45-174 | over every continuation of a run the dataset ends approved with the same manifest exactly when no step was one of these, and in conflict otherwise |
| DatasetStatus.LateApprovalReadNothing | apps/api/src/workflow_api/dataset_approval.py:45-74 | in every run a call that ends an approved status with its approval had read the dataset's history while nothing was recorded in it |
| DatasetStatus.ReadByChecked | apps/api/src/workflow_api/dataset_approval.py:45-68 | every call past its first read had read a history without a record, or one whose records all carry its own manifest |
| DatasetSafety.LateApprovalConflicts | apps/api/src/workflow_api/dataset_approval.py:45-74 | a concrete race in which a call that read an empty history appends another manifest after the promotion, and the approved status becomes a conflict |
| DatasetSafety.PostedApprovalConflicts | apps/api/src/workflow_api/control_service.py:230-264 | a concrete posted approval of another manifest after the promotion, with the same effect |
| DatasetSafety.LonePromotion | apps/api/src/workflow_api/control_service.py:230-264 | a concrete posted promotion on an empty log, which no approval precedes and from which no state is derived |
| DatasetSafety.ReadsFindRecord | apps/api/src/workflow_api/dataset_approval.py:76-103 | the two assertions that a state exists after an append never fail |
| DatasetAnswers.CallAnswers | apps/api/src/workflow_api/dataset_approval.py:30-106 | what an uninterrupted call answers and appends, said over the log before it: a first approval waits, a second reviewer's approval of the same manifest promotes, an own key gets the present state, another key, another manifest or an approved dataset conflicts, and a promotion whose key is taken leaves the approval behind |
| DatasetAnswers.FirstRead | apps/api/src/workflow_api/dataset_approval.py:46-68 | in every interleaving, what the first read of a call decides from the records of its dataset |
| DatasetAnswers.SecondRead | apps/api/src/workflow_api/dataset_approval.py:79-86 | in every interleaving, after its approval a call goes on to promote exactly when two reviewers agree and nobody has promoted |
| DatasetAnswers.LastRead | apps/api/src/workflow_api/dataset_approval.py:97-106 | in every interleaving, a call that has promoted returns the approved state with all approvers while the records agree and two reviewers stand behind them, and a conflict once they agree on no manifest |
| BrowserSessions.BrowserSessionStore.RegisterSession | apps/api/src/workflow_api/browser_session_store.py:134-207 | result and whole new state of a registration, with nothing kept when a digest was issued before |
| BrowserSessions.BrowserSessionStore.ResolveSession | apps/api/src/workflow_api/browser_session_store.py:209-231 | a session resolves exactly when its row reads back and is current |
| BrowserSessions.BrowserSessionStore.TouchSession | apps/api/src/workflow_api/browser_session_store.py:233-279 | result and whole new state of a touch, idle expiry capped by the absolute one |
| BrowserSessions.BrowserSessionStore.RotateSession | apps/api/src/workflow_api/browser_session_store.py:281-338 | result and whole new state of a rotation, which claims both new digests or changes nothing |
| BrowserSessions.BrowserSessionStore.RevokeSession | apps/api/src/workflow_api/browser_session_store.py:340-381 | result and whole new state of a revocation |
| BrowserSessionLife.RunKeepsSound | apps/api/src/workflow_api/browser_session_store.py:413-431 | in every run all digests ever issued, of both kinds, are distinct, and every stored row is one that reads back, with generation at most version |
| BrowserSessionLife.DigestNeverReissued | apps/api/src/workflow_api/browser_session_store.py:413-431 | a digest that was ever issued is refused for every later session or CSRF use |
| BrowserSessionLife.TableNeverCollides | apps/api/src/workflow_api/browser_session_store.py:171-202 | once the pair is claimed, the session table's own unique constraints never decide anything |
| BrowserSessionLife.UpdatesExactly | apps/api/src/workflow_api/browser_session_store.py:233-400 | a touch, rotation or revocation succeeds exactly under a condition its caller can check; the readback fails only at the last version |
| BrowserSessionLife.Lineage | apps/api/src/workflow_api/browser_session_store.py:233-381 | over any run a session keeps its holder, authentication and absolute expiry, its version rises with every change, and its generation never outruns its version |
| BrowserSessionLife.RevokedForGood | apps/api/src/workflow_api/browser_session_store.py:340-381 | a revoked row never changes again and every use of it is refused |
| BrowserSessionLife.RotationRetires | apps/api/src/workflow_api/browser_session_store.py:281-338 | after a rotation the old digest never resolves again |
| BrowserSessionLife.LifetimeBound | apps/api/src/workflow_api/session_security.py:127-154 | however often it was touched or rotated, a session resolves only within eight hours of its registered authentication, before its registered absolute expiry, and within thirty minutes of the registration or accepted touch that last saw it |
| BrowserSessionAnswers.ResolutionAnswers | apps/api/src/workflow_api/browser_session_store.py:209-231 | a digest resolves exactly while its session is not revoked, has been seen, and has expired neither by idling nor absolutely |
| BrowserSessionAnswers.ResolvesExactly | apps/api/src/workflow_api/browser_session_store.py:543-614 | whatever the table holds, a row is handed out exactly if all of it is admissible and it may be used now |
| BrowserSessionAnswers.RegistrationAnswers | apps/api/src/workflow_api/browser_session_store.py:134-207 | a registration succeeds exactly for an admitted holder, two digests never issued, and times within eight hours and thirty minutes that hold now; it keeps that row and both digests, and changes nothing otherwise |
| BrowserSessionAnswers.TouchAnswers | apps/api/src/workflow_api/browser_session_store.py:233-279 | a touch at the expected version of a usable session moves its last use to now and its idle expiry to thirty minutes later, at most the absolute one, and is otherwise refused without a change |
| BrowserSessionAnswers.RotationAnswers | apps/api/src/workflow_api/browser_session_store.py:281-338 | a rotation of a usable session to two new digests keeps everything but digests, generation and version, and is otherwise refused without a change |
| BrowserSessionAnswers.RevocationAnswers | apps/api/src/workflow_api/browser_session_store.py:340-381 | a revocation dates the row at the expected version and keeps the rest, and is otherwise refused without a change |
| SessionStores.InMemorySessionRepository.CreateSession | apps/api/src/workflow_api/repository.py:50-67 | result and whole new state of a registration in the reference |
| SessionStores.InMemorySessionRepository.GetSession | apps/api/src/workflow_api/repository.py:83-101 | result of a read in the reference |
| SessionStores.InMemorySessionRepository.MarkSessionUploaded | apps/api/src/workflow_api/repository.py:103-134 | result and whole new state of an upload mark in the reference |
| SessionStores.InMemorySessionRepository.CompleteSession | apps/api/src/workflow_api/repository.py:136-180 | result and whole new state of a completion in the reference |
| SessionStores.InMemorySessionRepository.GetSessionTimeline | apps/api/src/workflow_api/repository.py:182-188 | result of a timeline read in the reference |
| SessionStores.LegacySessionStore.CreateSession | apps/api/src/workflow_api/legacy_session_store.py:157-254 | result and whole new state of a durable registration with its event, and how an integrity failure is told apart |
| SessionStores.LegacySessionStore.GetSession | apps/api/src/workflow_api/legacy_session_store.py:277-297 | result of a durable read |
| SessionStores.LegacySessionStore.MarkSessionUploaded | apps/api/src/workflow_api/legacy_session_store.py:354-452 | result and whole new state of a durable upload mark, with the unique object key |
| SessionStores.LegacySessionStore.CompleteSession | apps/api/src/workflow_api/legacy_session_store.py:454-557 | result and whole new state of a durable completion, with the unique completion identifier |
| SessionStores.LegacySessionStore.GetSessionTimeline | apps/api/src/workflow_api/legacy_session_store.py:559-568 | result of a durable timeline read |
| SessionSimulation.CallsAgree | apps/api/src/workflow_api/legacy_session_store.py:157-568 | from related states both stores give the same outcome exactly when a completion names its own session and no key or identifier is shared with another session, and then they stay related; the version log stays complete |
| SessionSimulation.RunsAgreeExactly | apps/api/src/workflow_api/legacy_session_store.py:157-568 | on every sequence of well-formed calls the two stores return the same outcomes exactly when no call on the way completes another session or shares a key or identifier; they then hold the same sessions |
| SessionSimulation.RunsAgree | apps/api/src/workflow_api/repository.py:36-188 | this is so on every sequence that shares no object key or completion identifier between sessions and whose completions name their own |
| SessionSimulation.SharedKeyParts | apps/api/src/workflow_api/legacy_session_store.py:354-452 | a concrete run in which a second session takes the first one's object key: the reference accepts it and the durable store refuses |
| SessionSimulation.CommitKeepsLog | apps/api/src/workflow_api/legacy_session_store.py:930-973 | the log's unique session version never refuses an event: it holds exactly the versions gone through |
| SessionAnswers.PrefixMeans | apps/api/src/workflow_api/repository.py:153 | the kept directory is the path up to and with its last slash, or the whole path and a slash |
| SessionAnswers.CreationAnswers | apps/api/src/workflow_api/repository.py:50-67 | in both stores a first registration is a registered session with nothing uploaded |
| SessionAnswers.UploadAnswers | apps/api/src/workflow_api/legacy_session_store.py:354-452 | in both stores the upload of a registered session keeps its key and starts its processing, and asking again is the same |
| SessionAnswers.CompletionAnswers | apps/api/src/workflow_api/legacy_session_store.py:454-557 | in both stores a result of an uploaded session is kept with its directory for review; the same completion gets it again and any other conflicts |
| SessionAnswers.LaterUpload | apps/api/src/workflow_api/legacy_session_store.py:354-452 | in both stores an upload after the first conflicts under another key and starts nothing new under the same one |
| SessionAnswers.EarlyResult | apps/api/src/workflow_api/legacy_session_store.py:454-557 | in both stores only a session that was uploaded and has no result takes one |
| SessionAnswers.OthersAnswers | apps/api/src/workflow_api/legacy_session_store.py:157-568 | in both stores a held session does not exist for any other scope or owner, except that its identifier is taken |
| SessionAnswers.ReadAnswers | apps/api/src/workflow_api/legacy_session_store.py:277-297 | in both stores a session is read as its record by its own scope and owner only, and its timeline is the kept result |
| CaptureSessions.CalculateActiveDurationSeconds | apps/capture-agent/Domain/CaptureSession.cs:54-72 | the loop yields the truncated, non-negative whole seconds of its interval total |
| CaptureSessions.LoopSumsActiveIntervals | apps/capture-agent/Domain/CaptureSession.cs:54-72 | on a well-formed history the loop's total is the sum of the disjoint active intervals |
| CaptureSessions.ActiveTimeConserved | apps/capture-agent/Domain/CaptureSession.cs:43-72 | active plus paused time is the time from the first event to the end, and while the clock does not go back the stored seconds lie between zero and the session's length |
| CaptureCoordinator.SessionCoordinator.TickOnce | apps/capture-agent/Services/SessionCoordinator.cs:33-84 | outcome, whole new state and exact sequence of awaited calls of one tick, for every combination of failures |
| CaptureCoordinator.SessionCoordinator.FinalizePending | apps/capture-agent/Services/SessionCoordinator.cs:86-102 | a failure that leaves a session pending is reported with that session, unless it is a cancellation |
| CaptureCoordinator.SessionCoordinator.FinishActiveSession | apps/capture-agent/Services/SessionCoordinator.cs:104-140 | outcome, whole new state and awaited calls of finishing: stop, package once, upload |
| CoordinatorRuns.RunFollows | apps/capture-agent/Services/SessionCoordinator.cs:33-140 | in every run with failures at any await the calls follow one protocol and the fields stand where it is: no active beside a pending session, the recorder paused exactly when the last event is a pause, histories open or closed in the right shape |
| CoordinatorRuns.NoStartBeforeUpload | apps/capture-agent/Services/SessionCoordinator.cs:33-60 | between two starts the first session was uploaded |
| CoordinatorRuns.OneWritePerSession | apps/capture-agent/Services/SessionCoordinator.cs:122-132 | between two successful package writes another session has started |
| CoordinatorRuns.UploadsUseThePackage | apps/capture-agent/Services/SessionCoordinator.cs:124-133 | after a package is written every upload attempt of that session is of that package |
| CoordinatorRuns.UploadWasWritten | apps/capture-agent/Services/SessionCoordinator.cs:122-133 | every upload attempt is of a package written for that session since it started |
| CoordinatorRuns.FailedStartStillActive | apps/capture-agent/Services/SessionCoordinator.cs:33-60 | whenever a tick's recorder start fails, from any state, the tick fails with that error, the start was its last call, and the new session is active with nothing pending |
| CoordinatorAnswers.StartsSession | apps/capture-agent/Services/SessionCoordinator.cs:43-52 | the first tick with an approved window starts a session and its recorder |
| CoordinatorAnswers.KeepsSession | apps/capture-agent/Services/SessionCoordinator.cs:43-60 | later approved ticks note the time and resume a paused session |
| CoordinatorAnswers.WithinGrace | apps/capture-agent/Services/SessionCoordinator.cs:64-81 | until the grace period since the last approved window is over, a tick without one pauses the session and does no more |
| CoordinatorAnswers.PastGrace | apps/capture-agent/Services/SessionCoordinator.cs:64-140 | from then on such a tick stops the recorder and ends the session with its end as last event; it is written and uploaded at once, or what has been achieved waits with the session |
| CoordinatorAnswers.DeliversFirst | apps/capture-agent/Services/SessionCoordinator.cs:86-140 | a waiting session is delivered before anything else: written unless it has a package, then uploaded, and only then the tick goes on |
| Retention.CanonicalizeCopies | apps/api/src/workflow_api/retention_store.py:673-713 | the loop collects the copies by identifier and refuses an empty list, a malformed copy or a repeated identifier |
| Retention.RetentionLedger.Register | apps/api/src/workflow_api/retention_store.py:171-243 | result and whole new state of a registration, or a replay, or nothing |
| Retention.RetentionLedger.SetHold | apps/api/src/workflow_api/retention_store.py:245-306 | result and whole new state of placing or releasing a hold |
| Retention.RetentionLedger.Stage | apps/api/src/workflow_api/retention_store.py:308-364 | result and whole new state of staging one copy for trash |
| Retention.RetentionLedger.Attest | apps/api/src/workflow_api/retention_store.py:366-439 | result and whole new state of attesting one deletion, completing the target with the last copy |
| RetentionHistory.RunKeepsSound | apps/api/src/workflow_api/retention_store.py:171-598 | in every run and under all clocks each non-active copy was staged at or after creation plus fourteen days, a target is complete exactly when all its copies are deleted, staged minus deletion events is the number of copies in trash, and a hold is on exactly when one more was placed than released |
| RetentionHistory.CopiesMoveForward | apps/api/src/workflow_api/retention_store.py:337-410 | over any run copies keep their identity and only move from active to trash to deleted, and a completed target never changes |
| RetentionHistory.HeldCopiesStay | apps/api/src/workflow_api/retention_store.py:638-643 | from the placing of a hold until an event releases it no copy changes |
| RetentionHistory.RetryChangesNothing | apps/api/src/workflow_api/retention_store.py:600-615 | a recorded request repeated in any later state returns the target as it then is and changes nothing but the audit log |
| RetentionHistory.OverdueIsActionable | apps/api/src/workflow_api/retention_store.py:457-474 | the overdue targets are exactly the expired ones for which some copy can be staged or attested now |
| RetentionAnswers.RegistrationAnswers | apps/api/src/workflow_api/retention_store.py:171-243 | a first registration of a new target succeeds exactly for a non-empty list of well-formed copies without a repeated identifier; all are active and the target expires after fourteen days |
| RetentionAnswers.HoldAnswers | apps/api/src/workflow_api/retention_store.py:245-306 | a hold with a reason can be placed on every target that is neither complete nor held, and one without released from every held one; every other case is refused with its own error |
| RetentionAnswers.StagingAnswers | apps/api/src/workflow_api/retention_store.py:308-364 | an active copy is staged exactly from the fourteenth day on while its target is neither held nor complete, and every other case is refused with its own error |
| RetentionAnswers.AttestationAnswers | apps/api/src/workflow_api/retention_store.py:366-439 | a staged copy is deleted with the given receipt, and its target is complete exactly when all others were deleted before; every other case is refused with its own error |
| RetentionAnswers.ReplayAnswers | apps/api/src/workflow_api/retention_store.py:600-616 | a recorded key gets its target as it stands now exactly for the request that was recorded, conflicts for every other, and changes nothing but admitted evidence |
| Segments.ValidateOperationSegments | apps/api/src/workflow_api/models.py:360-389 | the models' loop accepts exactly the documents that pass its checks one after the other |
| Segments.ValidateProcessingResultSemantics | scripts/validate.py:216-272 | the contract check's loop accepts exactly the same, and no segment without evidence |
| SegmentRules.CheckedIsGlobal | apps/api/src/workflow_api/models.py:360-389 | the step-by-step checks amount to the global rule: numbered, no two segments overlapping at any distance, all evidence in the timeline and within bounds, none used twice anywhere |
| SegmentRules.EvidenceIsPartitioned | apps/api/src/workflow_api/models.py:379-387 | each piece of evidence belongs to exactly one segment and there is no more of it than timeline |
| SegmentRules.ValidatorsAgree | scripts/validate.py:216-272 | once the shape of every field holds, a document that the text check accepts is accepted by the models exactly when its timeline has no identifier in two spellings, and one that the models accept is accepted by the text check exactly when its evidence is spelled as in the timeline; neither check asks more |
| SegmentRules.TwoSpellingsDisagree | scripts/validate.py:224-271 | two well-shaped documents over UUID texts, one for each direction, that one validator accepts and the other refuses because of letter case |
| RunDerivation.DeriveOccurrences | apps/api/src/workflow_api/candidate_publication_store.py:1444-1498 | the run-splitting loop refines the simple rule: the whole timeline or a refusal of the right kind |
| RunDerivation.DeriveExactly | apps/api/src/workflow_api/candidate_publication_store.py:1444-1498 | on a validated result it succeeds exactly when each segment has one command and one event, every timeline event is a CAD command with a segment, all drawings agree and the timeline has 2 to 64 items |
| RunDerivation.DerivesWholeTimeline | apps/api/src/workflow_api/candidate_publication_store.py:1488-1498 | it returns the whole timeline in order, each item with its own segment's command and number |
| RunDerivation.NumbersPermuted | apps/api/src/workflow_api/candidate_publication_store.py:1488-1498 | the returned segment numbers are a permutation of one to their count |
| RunDerivation.DeriveErrors | apps/api/src/workflow_api/candidate_publication_store.py:1444-1498 | why an accepted document gives no run: an ambiguous segment or a CAD command without its segment, whichever item offends first, is invalid evidence, and all else is no candidate |
| Base64Url.DecodeEncode | apps/api/src/workflow_api/session_security.py:187-199 | decoding undoes encoding for material of any length |
| Base64Url.EncodeDecode | apps/api/src/workflow_api/session_security.py:187-199 | encoding undoes decoding exactly when the spare bits at the end are zero (section 3.5 of RFC 4648) |
| Base64Url.AcceptedExactly | apps/api/src/workflow_api/session_security.py:187-199 | a token is accepted exactly when it has 43 characters of the alphabet and its two spare bits are zero |
| Base64Url.TokensAreMaterial | apps/api/src/workflow_api/browser_session_store.py:525-540 | accepted tokens and 32-byte material are in bijection |
| Base64Url.TokensDiffer | apps/api/src/workflow_api/browser_session_store.py:525-540 | no two accepted tokens stand for the same material |
| Base64Url.GroupIsNumber | apps/api/src/workflow_api/session_security.py:187-199 | three bytes and four characters are one number in two bases, most significant digit first |
| Base64Url.Vectors | apps/api/src/workflow_api/session_security.py:187-199 | the vectors of section 10 of RFC 4648 and the two characters of the URL-safe alphabet |

## Left out

- SQLite itself, its pragmas, connection handling and schema checks: a transaction is atomic and serializable, and a failed one leaves every table as it was.
- SHA-256: digests of content are kept as their preimages; in `Publication` the digest is an arbitrary function, so nothing there rests on collision-freedom. The check constraints on the lengths of digests, identifiers and keys are therefore not part of `Publication.Check`.
- `datetime` parsing and the float conversion of timestamps: times are integers. `BrowserSessions` keeps the range of `datetime`; elsewhere its overflow is not modelled.
- Admission and construction of candidate bodies (`_admit_evidence`, `_build_candidate`) and JSON printing and parsing of evidence: arbitrary functions of `Publication.Codec`; the run derivation inside admission is modelled on its own. Arrays in that module's copy of the canonical serializer.
- The field checks of an audit record and of a principal (subject, roles, origin): one flag for each.
- The rows of `DiscoveryScan` are one scope's rows that are finalized at some point of a call, in the order of the query; a finalized row keeps its columns (`PublicationFencing.FinalizedIsForever`). Guards of the service on the type, state and scope of a listed row, which the query already fixes, and the authority check that ends a listing with an error.
- Dataset approval: liveness. A call that stops between the second approval and the promotion leaves the dataset pending.
- `CaptureSessions.CalculateActiveDurationSeconds`: does not model the rounding of `TotalSeconds` to a double nor the overflow of the cast to `int`, both beyond sessions of many years.
- Cancellation inside an await that is reported without being requested, the coordinator's logging, and the window detector's own failures.
- Retention listings are sets: the order by expiry and identifier, and the scoped variant, which adds the prefix filter proved in `AuditLog`, are left out.
- The workload principals and proof claims of the legacy session store: optimistic versions and a primary key, as in `BrowserSessions`.
- Expected versions, actors and request digests of the legacy session store's calls; its listings; timestamps and retention dates of session records.
- Reading a non-ASCII digit as a decimal in an idempotency key, dictionary keys that are not text, and CPython's limit on the digits of an integer.
- `JcsRoundTrip.RoundTrip`: reads the escapes that the serializer writes; other escapes of JSON, among them surrogate pairs, are not part of the reader.
- `SegmentRules.ValidatorsAgree`: two texts parse to one UUID when they differ in letter case only; forms of a UUID without hyphens, in braces or as a URN, which the contract's format excludes, are not modelled.
- `CandidateReview.ValidateProjection`: does not model that Python takes a stored `true` or `1.0` for the version 1. The printed length of evidence that is an object, an array, a truth value or a float, and of an older payload, is a number that comes with it.
- `AuditLog.ScopedIsOneScope`: assumes that every stored target is a qualified key, as every caller in the service makes it.
- Aliases and keyword normalization of the public method signatures, error texts and logging.
- HTTP routes, runtime composition, cloud clients, the web interface, zip writing, file locks and the worker's pipeline.
