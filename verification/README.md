# lcm, modelled and proved

Dafny model of the certificate lifecycle service: the live-event hub, authorization and
the list scopes built on it, enrollment requests and their issuance jobs, the renewal
scheduler, tenant backups, cursor and list paging, ACME domain lists and the audit writer.
`dafny verify dfyconfig.toml` checks the whole project.

- Concurrent parts are step machines with theorems over every run: the hub
  (`hub_protocol.dfy`, `hub_safety.dfy`, `hub_handover.dfy`, `hub_repeats.dfy`,
  `hub_limits.dfy`), the jobs
  (`jobs.dfy`, `jobs_atomic.dfy`), the grants (`authz_runs.dfy`) and the audit writer
  (`audit.dfy`). A hub push checks and stamps in one step; a job operation reads in one
  step and writes in a later one, and a grant is checked in one state and written in a
  later one, with anything in between. Renewal passes run over the whole certificate table
  (`renewal.dfy`, `renewal_table.dfy`).
- Objects that change in place are classes over the same state: `hub.dfy`,
  `stream_log.dfy`, `audit.dfy`, `jobs_store.dfy`, `authz_service.dfy`,
  `backup_service.dfy`. The methods of the hub and the audit writer are proved to be a step
  of their machine or to lead from state to state by the steps they return; the operations
  of the job store and the authorizer are the write steps of theirs; the others are equal to
  their specification functions.
- Loops that compute a value are methods proved against a function or a stated property:
  paging, scope, backup export, domain lists, redaction, nesting depth. `paging_walks.dfy`
  holds clients that feed each listing its own cursors back.

Where a promise does not hold in general there is a concrete run or input that breaks it
and the exact condition under which it holds; these members are marked "if and only if" or
name the run in the table.

Conventions. Times are integers (nanoseconds in `renewal.dfy`). Lower-cased names are
represented by their rank among all names, the empty name ranking 0, because the code only
compares them. Resource and row ids are natural numbers or texts compared for equality and
order only. Sealed settings are a value carrying the clear settings and the id they are
sealed for. Lower-casing with trimming, time formatting, SPIFFE parsing and the encoded
size limit are parameters, with what is needed of them stated where they are used. The
in-memory store gives the meaning of store calls, a transaction being all or nothing;
`DueForRenewal` follows the SQL, which asks for `auto_renew`, where the in-memory store
does not. The comment that the list's shape guard makes it equal to the single-record
check is true only for SPIFFE ids both read alike (`EnrollScope.ParserExact`): an id with
an upper-case scheme, for one, is readable and not listed.

## Model

| member | source | states |
|---|---|---|
| `StreamIds.FormatParse` | internal/stream/client.go:66-79 | A formatted stream id parses back to the same milliseconds and sequence number, if and only if the milliseconds are not negative (a leading minus is read as the separator) |
| `StreamIds.TextOrder` | internal/stream/client.go:82-89 | Comparing two formatted ids as texts is comparing (milliseconds, sequence); equal texts mean equal ids |
| `StreamIds.ParseIntExact` | internal/stream/client.go:71-79 | A part of an id is read exactly when it is digits behind at most one sign, within 64 bits, and then as the number the digits write |
| `StreamIds.ParseIdExact` | internal/stream/client.go:71-79 | An id is read around its first dash, and fails when it has none or either part does not read |
| `StreamIds.RecipientsExact` | internal/stream/hub.go:170-280 | A published recipient list reaches exactly its members, if and only if it is not the one-user list whose text is the broadcast mark |
| `StreamIds.PublishTo` | internal/stream/hub.go:174-205 | The recipients of a publish are accepted exactly when they are everybody, or one to a thousand users none of which is empty or holds a comma, space or newline; the published text reaches everybody, or exactly the given users unless that is the one user * |
| `StreamLog.AppendOrdered` | internal/stream/client.go:91-111 | A log stays ordered by id through an append exactly when the clock did not go back since its newest entry |
| `StreamLog.NewerIsSuffix` | internal/stream/client.go:114-125 | In an ordered log what is newer than an id is a suffix of it |
| `StreamLog.KeptIsSuffix` | internal/stream/client.go:181-195 | Trimming an ordered log below an id keeps a suffix of it |
| `StreamLog.TailNewest` | internal/stream/client.go:91-111 | Capping after an append keeps the new entry and the newest of the others, as many as the cap leaves room for |
| `StreamLog.Memory.XAdd` | internal/stream/client.go:91-111 | Appends one entry under the next counter value, keeps the newest maxLen, touches no other stream, and keeps every stream ordered while the clock does not go back; an outage changes nothing |
| `StreamLog.Memory.AfterScan` | internal/stream/client.go:114-125 | The scan that stops early returns the first count of all entries newer than the id, or of all entries when no id is given |
| `StreamLog.Memory.XRead` | internal/stream/client.go:127-158 | Reads what is newer than the given id, or than the newest entry when none is given; when that is nothing and the caller blocks, a cancelled wait is an error, a timeout is empty, and a wake-up reads once more from the same id |
| `StreamLog.BlockedReadsNew` | internal/stream/client.go:127-158 | A blocked read without an id returns exactly what was appended while it waited, in order, up to count |
| `StreamLog.ReadExact` | internal/stream/client.go:127-158 | A read returns something at once exactly when an entry is newer; otherwise nothing at once, or it waits, and then fails exactly when cancelled or woken into an outage, and a timeout is nothing |
| `StreamLog.Memory.XRange` | internal/stream/client.go:160-167 | The newer entries up to count, or the outage |
| `StreamLog.Memory.XTrimMinId` | internal/stream/client.go:181-195 | Keeps exactly the entries not older than the id, other streams untouched, order kept |
| `HubSafety.KeepsInv` | internal/stream/hub.go:211-377 | Every step of the hub keeps the invariant over logs, subscriptions, loops and accounts |
| `HubSafety.AcceptedInOrder` | internal/stream/hub.go:251-350 | In every run, under every interleaving of replay, live dispatch and Close, the ids a subscription accepts strictly increase and each is an entry of its own tenant addressed to its user; the same of what reaches its buffer |
| `HubSafety.CloseIsFinal` | internal/stream/hub.go:334-377 | After Close nothing is accepted or queued any more; nothing accepted is ever lost, tenant and user never change |
| `HubSafety.StreamsAccounted` | internal/stream/hub.go:211-248 | In every run a tenant has a record exactly while it has an open stream, the connection set and the per-user counters count the open streams, and neither limit is exceeded |
| `HubHandover.HandoverExact` | internal/stream/hub.go:211-350 | Over every run in which the loop is not behind the last id of the reconnecting reader, nothing newer than that id is trimmed, the replay reads inside the window without failing, and the reader is not closed and its buffer keeps room: what it was sent is at every moment a prefix of what it missed, if and only if no live push overtakes an event its replay has yet to deliver; and then, once replay and loop have caught up, it is exactly what it missed, once each and in order |
| `HubHandover.LivePushExact` | internal/stream/hub.go:251-350 | A live push at any stage of the replay keeps what was accepted a prefix of what was missed, if and only if every addressed entry older than the pushed one was accepted before |
| `HubHandover.EarlyPushExact` | internal/stream/hub.go:251-350 | Where the accepted entries reach exactly to a position, that is if and only if no addressed entry lies between that position and the pushed entry |
| `HubRepeats.StepRepeats` | internal/stream/hub.go:251-350 | Over any step an open subscription has accepted an event that is not newer than the last id it came with exactly when it had before, or such an event is pushed to it live while it has accepted nothing; the replay never repeats |
| `HubRepeats.RepeatedExact` | internal/stream/hub.go:211-350 | Over every run, wherever the loop stood at the reconnect and while it finds its entries untrimmed: events up to the last id are delivered again if and only if the loop has since served one that is addressed to the reader and nothing newer had been stamped when the first of them was pushed |
| `HubRepeatRun.ReconnectRepeats` | internal/stream/hub.go:211-350 | A run in which a client that reconnects ahead of the loop is sent again the very event whose id it came with |
| `HubHandover.KeepsPositions` | internal/stream/hub.go:284-331 | Every step keeps each loop at a position of its stream: its batch is the stretch after its cursor and its current entry the one at it |
| `HubLimits.ReplayFills` | internal/stream/hub.go:251-267 | Replaying accepts every addressed entry but sends only as many as the buffer has room for |
| `HubLimits.ReplayWholeIffFits` | internal/stream/hub.go:244-267 | A replay that runs before anyone reads is delivered whole if and only if at most 32 missed events are addressed to the user |
| `HubLimits.OvertakingLoses` | internal/stream/hub.go:244-350 | A run in which a live push overtakes the replay and the event before it is never delivered, though nothing is trimmed and the buffer has room |
| `HubLimits.ResetExact` | internal/stream/hub.go:251-261 | A replay whose last id does not parse or lies before the window, and one whose read fails, leaves one event more waiting, unless the stream is closed or its buffer full, no replay pending, and everything else as it was; a replay that can start queues nothing yet |
| `HubLimits.PublishExact` | internal/stream/hub.go:170-206 | Publishing appends one entry, stamped with the clock and the next number, to that tenant alone and keeps the newest maxLen of what is live |
| `HubLimits.LivePushEffect` | internal/stream/hub.go:334-350 | A live push stamps an entry exactly when the stream is open and the entry newer than the last, queues it exactly when in addition fewer than 32 wait, and marks the stream as stalled exactly when 32 do |
| `HubLimits.StalledIsClosed` | internal/stream/hub.go:315-331 | A stalled stream is closed by the next step of its loop, which can do nothing else before |
| `HubLimits.ReadTakes` | internal/stream/hub.go:290-300 | A loop reads at most a hundred entries, the first newer than its cursor |
| `HubService.Hub.Register` | internal/stream/hub.go:211-248 | Succeeds exactly when the open streams of the tenant and of the user are below their limits, and then is the subscribe step; otherwise nothing changes |
| `HubService.Hub.PushTo` | internal/stream/hub.go:334-350 | Is the push step on one subscription, accepting check and stamp in one, and answers whether the buffer took it |
| `HubService.Hub.Close` | internal/stream/hub.go:356-377 | Is the close step: idempotent, the tenant record goes with the last open stream, the invariant is kept |
| `HubService.Hub.Replay` | internal/stream/hub.go:251-267 | A client whose last id is unusable or too old gets one reset more in its buffer, if open and not full, and nothing else; otherwise every entry since it is pushed in order; no other subscription changes; the whole state is the one that its replay steps lead to |
| `HubService.Hub.Serve` | internal/stream/hub.go:315-331 | One target of a dispatch is pushed, and closed if its buffer was full: the whole state, tenant records included, is the one that the push step, followed by the close step exactly when the buffer was full, leads to |
| `HubService.Hub.Dispatch` | internal/stream/hub.go:315-331 | In whatever order the connections are visited each addressed one is pushed once and closed if stalled, and no other changes; the whole state is the one that a pick followed by push and close steps of that loop leads to |
| `HubService.OpenCounts` | internal/stream/hub.go:211-235 | The record a registration consults counts exactly the open streams |
| `Audit.NothingLost` | internal/audit/audit.go:248-341 | For every schedule of record, receive, tick, flush and close: rows handed to the store, then the buffer, then the queue are the accepted rows in order, and valid records are accepted plus dropped |
| `Audit.RecordExact` | internal/audit/audit.go:248-279 | A valid record is accepted exactly while the writer is open and the queue has room, and otherwise dropped and counted; an invalid one leaves no trace |
| `Audit.HandedWhen` | internal/audit/audit.go:304-341 | Rows leave for the store at the two-hundredth of a batch, at every tick and when a flush is answered, all of them and in order; until then a received row waits |
| `Audit.FlushAnswered` | internal/audit/audit.go:282-341 | When a flush is answered every row accepted before it was requested is with the store |
| `Audit.CloseDrains` | internal/audit/audit.go:304-354 | After close nothing is accepted, and once the loop has stopped everything accepted is with the store, for good |
| `Audit.CloseProgresses` | internal/audit/audit.go:304-354 | A closed writer always has a step that brings it strictly closer to stopping |
| `Audit.BatchLog.Record` | internal/audit/audit.go:248-279 | Is the record step: an invalid event is refused, a valid one queued, or counted as dropped when the writer is closed or the queue full |
| `Audit.BatchLog.Write` | internal/audit/audit.go:309-319 | Is the flush of the buffer: handed over whole, once, unless empty |
| `Audit.BatchLog.Receive` | internal/audit/audit.go:320-331 | Is the receive step: a full batch is written at once |
| `Audit.BatchLog.Flush` | internal/audit/audit.go:282-341 | Leads by request, drain and answer steps to a writer that holds nothing and has handed over everything accepted; a closed writer does not take it |
| `Audit.BatchLog.Shut` | internal/audit/audit.go:344-353 | Is the close step: from then on records are dropped and counted |
| `Audit.BatchLog.Finish` | internal/audit/audit.go:304-341 | Leads by receive steps and the finish step to a stopped writer that has handed over everything accepted |
| `Audit.BatchLog.Close` | internal/audit/audit.go:344-354 | Leads by the close step and the steps of the loop to a stopped writer that has handed over everything accepted; a second call does nothing |
| `EnrollJobs.KeepsInv` | internal/enroll/jobs.go:99-222 | Every read or write step of approve, reject, cancel, retry, claim and finish keeps the row invariant, also when a stale copy is written back |
| `EnrollJobs.JobsSound` | internal/enroll/jobs.go:99-222 | In every run, however stale the copies: attempts stay within their limit, a queued job has one left, a lease is held exactly while processing, an error shown exactly while failed, a completed job names its certificate |
| `EnrollJobs.RowsAfter` | internal/enroll/jobs.go:99-222 | What each write leaves: an approval a job due at once without attempts, a cancel and every failure the attempts and the client-safe reason, a retry a job due at once with its attempts kept, a claim a lease and one attempt more, a stored result its certificate |
| `EnrollJobs.OneClaimPerRetry` | internal/memstore/memstore.go:650-678 | No job is handed out by two claims without a retry written in between, in any interleaving |
| `EnrollAtomic.WholeIsTwoSteps` | internal/enroll/requests.go:169-241 | A read step followed at once by its write step is the operation in one piece |
| `EnrollAtomic.AttemptsExact` | internal/enroll/jobs.go:99-222 | In every run, every interleaving included: every job's attempts are its claims in every state, if and only if every row written back by a retry, a cancel or a worker carries the attempts then stored |
| `EnrollAtomic.CompletedExact` | internal/enroll/jobs.go:99-222 | In every run, the certificates being fresh: completed jobs never change, if and only if no retry, cancel or worker writes its row back onto a completed job |
| `EnrollAtomic.DecisionsExact` | internal/enroll/requests.go:169-241 | In every run: each request has at most one job, exactly the approved and issued ones have one, and no decision is undone, if and only if every decision is written while its request is pending (or already rejected, for a rejection) |
| `EnrollAtomic.DecisionsAtOnce` | internal/enroll/requests.go:169-241 | Approvals and rejections whose write directly follows their read are all timely, whatever retries, cancels and workers do in between |
| `EnrollAtomic.UninterruptedMeets` | internal/enroll/jobs.go:99-155 | Operations that write directly after reading and cancel only queued jobs meet all three conditions |
| `EnrollAtomic.OneJobPerRequest` | internal/enroll/requests.go:169-208 | In every run whose decisions are timely, retries and cancels as late as they like: a request has at most one job, and only an approved or issued one has any |
| `EnrollAtomic.RejectedForGood` | internal/enroll/requests.go:212-241 | In every run whose decisions are timely a rejected request is never issued and never gets a job |
| `EnrollAtomic.CompletedForGood` | internal/enroll/jobs.go:162-208 | When in addition no row is written back onto a completed job, a completed job never changes again and its request is issued from then on |
| `EnrollAtomic.ClaimsBounded` | internal/enroll/jobs.go:129-208 | In every run whose written rows carry the stored attempts a job is claimed at most max_attempts times |
| `EnrollAtomic.ApproveWriteExact` | internal/enroll/requests.go:181-197 | The late write of an approval gives no request a second job and reopens no decision, if and only if the request is still pending at the write |
| `EnrollAtomic.RejectWriteExact` | internal/enroll/requests.go:224-230 | The late write of a rejection undoes no decision, if and only if the request is not approved or issued by then |
| `EnrollAtomic.LateRetryReopens` | internal/enroll/jobs.go:129-208 | A run without any cancel in which a retry written late queues a completed job again, and the claim after it is the third out of two |
| `EnrollAtomic.LateCancelReopens` | internal/enroll/jobs.go:99-126 | A run in which a cancel that read a queued job is written after its completion, fails it and forgets its claim |
| `EnrollAtomic.CancelBreaksLimit` | internal/enroll/jobs.go:99-222 | A run with a cancelled processing job that claims a two-attempt job three times |
| `EnrollAtomic.ApprovalsRace` | internal/enroll/requests.go:169-208 | A run in which two approvals queue two jobs for one request |
| `EnrollAtomic.RejectionUndone` | internal/enroll/requests.go:169-241 | A run in which an approval read earlier queues a job for a rejected request |
| `JobStore.SortSorts` | internal/memstore/memstore.go:662-667 | The due rows are put in order, none lost or added |
| `JobStore.ClaimOrder` | internal/memstore/memstore.go:650-678 | What the order is: handed-out jobs by run_after and then id, each one queued, due and without a running lease, and no such job left out that has an earlier run_after, or the same and a smaller id |
| `JobStore.Store.ClaimDueJobs` | internal/memstore/memstore.go:650-678 | Hands out the due jobs with the smallest run_after, and id among equal ones, in that order, as many as the limit allows (none for a limit that is not positive), each claimed as stored; every other row is untouched |
| `JobStore.Store.Approve` | internal/enroll/requests.go:169-208 | Succeeds exactly on a pending request and then is the write of an approval; unknown and decided requests change nothing |
| `JobStore.Store.Reject` | internal/enroll/requests.go:212-241 | Succeeds exactly on a pending request and then is the write of a rejection |
| `JobStore.Store.Cancel` | internal/enroll/jobs.go:99-126 | Fails exactly the queued and processing jobs and then is the write of a cancel |
| `JobStore.Store.Retry` | internal/enroll/jobs.go:129-155 | Succeeds exactly on failed jobs with attempts left and then is the write of a retry |
| `JobStore.Store.Process` | internal/enroll/jobs.go:162-222 | Writes the claimed copy back as the outcome says; the request is issued exactly when the result was stored |
| `JobStore.Store.ProcessAll` | internal/enroll/jobs.go:302-317 | Every job of the batch ends as its outcome says, no other job changes, requests only ever become issued |
| `JobStore.Store.Once` | internal/enroll/jobs.go:302-317 | Claims the first due jobs and settles every one of them; no other job changes |
| `Authz.PermissionsOf` | internal/authz/authz.go:144-157 | Which relations carry each permission: read all four, write editor and owner, delete the owner alone, share sharer and owner, use sharer, editor and owner |
| `Authz.HoldsMeans` | internal/authz/authz.go:216-262 | A caller holds a permission exactly with the role owner or admin, or by a grant on the resource that carries it, has not ended, and names the tenant, one of the roles, or the user id, which is not empty |
| `Authz.AccessibleMeans` | internal/authz/authz.go:306-324 | An id is listed exactly by a grant of the tenant on it that carries read, names the caller and has not ended |
| `Authz.AccessEnds` | internal/authz/authz.go:216-222 | Without a new write nothing is held later that is not held now |
| `Authz.OtherTenants` | internal/authz/authz.go:201-209 | Nothing in another tenant is ever allowed, revoked or listed, whatever grants and roles say |
| `Authz.InvalidInput` | internal/authz/grants.go:22-41 | Which grant requests are refused as invalid, case by case |
| `Authz.GivenMeans` | internal/authz/grants.go:43-68 | A written grant gives its user, role or tenant the relation asked for, on that resource of the granter's tenant, until the end asked for |
| `Authz.UpsertMeans` | internal/memstore/memstore.go:1187-1202 | An upsert leaves one grant for its resource and subject, with its own relation and end, and every other grant as it was |
| `Authz.RankCovers` | internal/authz/authz.go:144-171 | A relation within a held rank carries nothing beyond the held relation and share, although ranks are not permission inclusion |
| `Authz.GranterHolds` | internal/authz/grants.go:43-68 | Whoever may grant a relation holds every permission it carries |
| `Authz.GrantConfined` | internal/authz/grants.go:43-68 | A grant gives nobody, now or later, a permission that neither they nor the granter had there, and nothing on any other resource |
| `Authz.UpsertKeepsUnique` | internal/memstore/memstore.go:1187-1202 | A resource and subject never get two grants |
| `Authz.ListExact` | internal/authz/authz.go:306-324 | The listing filter is exactly what Check allows, if and only if no grant the caller could read by is left on a resource that is gone |
| `AuthzRuns.NoStrayGrants` | internal/authz/grants.go:43-104 | Over every run of create, delete, backup import, of grants and revocations written some time after their check, and of owner grants that a finished job hands over some time after its certificate was created: no grant is ever left on a resource that is gone, if and only if every grant and every hand-over is written while its resource is still there |
| `AuthzRuns.OneGrantEach` | internal/memstore/memstore.go:1187-1202 | In every such run a resource and subject never have two grants |
| `AuthzRuns.CreatorOwns` | internal/authz/grants.go:89-99 | Whoever creates a resource, or has one handed over, holds every permission on it from then on; nobody else gains or loses any, and a service creator gives none |
| `AuthzRuns.LandsUnlessRemoved` | internal/enroll/jobs.go:182-197 | A grant or a hand-over is written while its resource is there whenever the resource is not removed between check, or creation, and write; and only then, unless the same id is created again |
| `AuthzRuns.ListingMatchesCheck` | internal/authz/authz.go:281-324 | In every run whose grants and hand-overs are written while their resources are there, an id is listed for a caller exactly when Check lets them read it |
| `AuthzRuns.StepConfinedExact` | internal/authz/grants.go:43-104 | A step that leaves a resource to its holders makes live no permission that was not, if and only if the grant it writes carries only what is live there |
| `AuthzRuns.SharingExact` | internal/authz/grants.go:43-87 | Over every run that leaves a resource to its holders: no step makes a permission live that no grant there carried any more, if and only if every grant is written while what it carries is still live |
| `AuthzRuns.SharingConfined` | internal/authz/grants.go:43-87 | Then no permission is ever live on the resource that was not at the start, however it is passed on, taken back or let expire |
| `AuthzRuns.HolderCovered` | internal/authz/grants.go:43-68 | A holder who is no administrator, checked at the write, grants only what is live |
| `AuthzRuns.RevocationBetween` | internal/authz/grants.go:43-87 | A run in which a grant checked before and written after the revocation of its granter's own grant makes a permission live that no grant carried any more |
| `AuthzRuns.DeletionBetween` | internal/authz/grants.go:43-68 | A run in which a grant checked before and written after a deletion is listed although Check finds nothing |
| `AuthzRuns.DeletionBeforeHandOver` | internal/enroll/jobs.go:182-197 | A run without any grant in which a certificate is deleted before its job hands it over: its requester has it listed although Check finds nothing |
| `AuthzService.Decide` | internal/authz/authz.go:242-262 | The loop computes exactly the permissions of the unended grants that name the caller, everything for the roles owner and admin, the strongest of the relations, and exactly the contributing grants |
| `AuthzService.Authorizer.GrantsOnResource` | internal/memstore/memstore.go:1240-1255 | Collects exactly the grants on the resource |
| `AuthzService.Authorizer.Resolve` | internal/authz/authz.go:266-276 | Not found outside the tenant, else exactly the permissions and the rank the grants give |
| `AuthzService.Authorizer.Check` | internal/authz/authz.go:281-293 | Each of the four answers exactly in its case, in that order; a caller who is no administrator passes only by an unended grant that names them and carries the action |
| `AuthzService.Authorizer.ListAccessibleIDs` | internal/authz/authz.go:306-324 | The loop collects exactly the readable ids, or says all for an administrator |
| `AuthzService.Authorizer.UpsertGrant` | internal/memstore/memstore.go:1187-1202 | Replaces the grant of the same resource and subject, or adds one; nothing else changes |
| `AuthzService.Authorizer.Give` | internal/authz/grants.go:43-68 | Succeeds exactly when allowed, check and write in one; each refusal exactly in its case, changing nothing |
| `AuthzService.Authorizer.Revoke` | internal/authz/grants.go:71-87 | Removes the grant exactly when the caller may share its resource; not found for an unknown or another tenant's grant or a resource that is gone, forbidden otherwise, changing nothing |
| `AuthzService.Authorizer.GrantOwner` | internal/authz/grants.go:91-99 | Is the hand-over step: records the owner whether or not the resource is there; a service creator leaves no grant |
| `AuthzService.Authorizer.DropResource` | internal/memstore/memstore.go:1288-1300 | Removes exactly the grants of the resource |
| `EnrollScope.ListedDomainIs` | internal/memstore/pages.go:58-69 | The third slash field of a SPIFFE id of the listed shape is its trust domain |
| `EnrollScope.ShapeExact` | internal/memstore/pages.go:58-69 | A SPIFFE id has the listed shape exactly when it is spiffe://, a domain of lower-case letters, digits, dots and hyphens, a slash, and a path without query or fragment, neither empty |
| `EnrollScope.ReadScope` | internal/enroll/lists.go:23-57 | The page-by-page scan of issuers yields the domains of exactly the readable default issuers, however many pages there are |
| `EnrollScope.FilterExact` | internal/authz/authz.go:281-324 | An issuer is readable exactly when it exists and the filter names it |
| `EnrollScope.DomainExact` | internal/enroll/lists.go:36-54 | A domain is in the scope exactly when its default issuer is readable |
| `EnrollScope.RequestListExact` | internal/enroll/lists.go:61-75 | A list shows exactly the requests the caller may read one by one |
| `EnrollScope.RequestListSound` | internal/store/pages.go:110-127 | Nothing is listed that may not be read, also for stored ids of another shape |
| `EnrollScope.JobListExact` | internal/enroll/jobs.go:236-252 | A list shows exactly the jobs the caller may read one by one, administrators and unresolved requests included |
| `EnrollScope.PinnedGone` | internal/enroll/requests.go:245-255 | For an administrator and another's pinned request, listed and readable agree if and only if the pinned issuer exists |
| `EnrollScope.ParserExact` | internal/enroll/requests.go:259-272 | Whatever parser the single check uses, listed and readable agree in every store if and only if it reads the same trust domain out of the SPIFFE id |
| `Paging.CutTakes` | internal/issue/certificates.go:148-173 | Cutting at the n-th visible row keeps the first n visible rows and ends with the last of them |
| `Paging.FollowComplete` | internal/issue/certificates.go:117-178 | Sending each full page's last row back collects every visible row once, in order, for every page size, and stops |
| `Paging.FollowCutComplete` | internal/enroll/requests.go:139-164 | The same when pages are cut first and filtered after |
| `Paging.Collect` | internal/issue/certificates.go:156-169 | The inner loop appends the visible rows fetched and stops at a full page |
| `Paging.PageLimitIs` | internal/issue/certificates.go:122-124 | A page holds as many rows as asked for between one and a hundred, else fifty |
| `CertificatePages.CursorExact` | internal/memstore/memstore.go:107-112 | The rows after a cursor row are those behind it, if and only if its creation time is not the zero time |
| `CertificatePages.ZeroTimeRepeats` | internal/memstore/memstore.go:107-112 | A zero-time row sent back as cursor starts the list over |
| `CertificatePages.CertificatesOnce` | internal/issue/certificates.go:117-178 | Following the certificate cursor returns every readable certificate once, newest first, and stops |
| `CertificatePages.ListCertificates` | internal/issue/certificates.go:117-178 | The first readable certificates after the cursor, all of them older than its row, and a next cursor exactly when full; a cursor that is no UUID, unknown or unreadable ends the list |
| `CertificatePages.FillPage` | internal/issue/certificates.go:148-173 | The loop over store pages fills one page of readable rows however many hidden ones lie between |
| `CertificatePages.PageAll` | internal/transfer/backup.go:596-612 | The paged walk returns the newest certificates up to the bound |
| `IssuerPages.StartExact` | internal/memstore/memstore.go:209-226 | The list from the start holds every issuer if and only if none has an empty name |
| `IssuerPages.IssuersOnce` | internal/issue/issuers.go:213-253 | Following the name cursor returns every readable issuer once, by name, and stops |
| `IssuerPages.ListIssuers` | internal/issue/issuers.go:213-253 | The first readable issuers after the name, a next name exactly when full |
| `EnrollPages.ListReadable` | internal/enroll/jobs.go:69-94 | The readable rows of the page cut after the cursor, and the cut's last row as next cursor when full |
| `EnrollPages.RequestsOnce` | internal/enroll/requests.go:139-164 | Following the cursor returns every readable row once even when pages show fewer rows than were cut |
| `EnrollPages.DecodeCursor` | internal/enroll/enroll.go:342-356 | Reads the time up to the first separator that is not at the start, and the rest as the id |
| `EnrollPages.DecodeExact` | internal/enroll/enroll.go:342-356 | A cursor is refused exactly when it is not empty and has no separator behind its first character, or no time before the first such one |
| `EnrollPages.CursorRoundTrip` | internal/enroll/enroll.go:338-356 | A next cursor is read back as the position it was made from, whatever the id |
| `ListWalks.WalkCertificates` | internal/issue/certificates.go:117-178 | Calling ListCertificates with the cursor it returned, until it returns none, collects every readable certificate once, newest first, for every page size |
| `ListWalks.WalkIssuers` | internal/issue/issuers.go:213-253 | Calling ListIssuers with the name it returned, until it returns none, collects every readable issuer once, by name, for every page size |
| `ListWalks.ListRequests` | internal/enroll/requests.go:139-164 | The readable rows of the page cut after the decoded cursor and the encoded last row of a full cut; a cursor that does not decode is an error |
| `ListWalks.WalkRequests` | internal/enroll/requests.go:139-164 | Calling ListRequests with the cursor text it returned, until it is empty, collects every readable request once, newest first; every cursor handed out decodes |
| `ListPages.DeferredExact` | internal/store/pages.go:37-48 | Selecting keys first, joining them back in any order and ordering by position answers the directly selected page, and nothing else, for every limit and offset, if and only if the join column is a key for the listed rows |
| `ListPages.SortJoinExact` | internal/store/pages.go:146-157 | The issuer join added for sorting neither drops nor repeats a row, if and only if no listed issuer id occurs twice |
| `ListPages.PagesPartition` | internal/store/pages.go:57-79 | Pages one after the other hold every listed row once |
| `ListPages.HiddenNeverShown` | internal/store/pages.go:57-79 | A row is shown on some page exactly when it is a visible row of the table |
| `Renewal.FreshNotDue` | internal/renew/renew.go:99-121 | No certificate of a positive lifetime is due when issued, for every valid configuration |
| `Renewal.DueMeans` | internal/renew/renew.go:99-121 | A short-lived certificate is due when what remains is at most the fraction of its lifetime, a longer one within the fixed window or when at most the rest of the fraction remains, exactly and without rounding |
| `Renewal.WindowBounded` | internal/renew/renew.go:125-132 | The scan's bound covers the window of every lifetime the service issues |
| `Renewal.WindowTight` | internal/renew/renew.go:125-132 | And no more than needed: some lifetime within the limit has just that window |
| `Renewal.ScanReaches` | internal/renew/renew.go:125-143 | The scan reaches a certificate at every moment it is due, if and only if its window is within the bound |
| `Renewal.LongImportMissed` | internal/issue/importcert.go:60-83 | A ten-year certificate, imported with its key and automatic renewal, that is due and that the scan does not reach |
| `Renewal.SelectDue` | internal/renew/renew.go:140-156 | The loop selects exactly the scanned certificates that are due, in the order of the scan |
| `Renewal.BatchSize` | internal/store/repos.go:495-505 | A scan takes every candidate, or the first 256 |
| `Renewal.RowSelected` | internal/store/repos.go:495-505 | A certificate is selected exactly when it is live, unsuperseded, auto-renewed and due and fewer than a batch of candidates expire before it |
| `Renewal.PassExact` | internal/store/repos.go:495-505 | A pass selects exactly the live, unsuperseded, auto-renewed, due certificates, if and only if fewer than a batch of candidates expire before each of them |
| `Renewal.FullBatchStarves` | internal/store/repos.go:495-505 | A full batch of certificates that are not due hides one that is |
| `Renewal.LifetimeKept` | internal/issue/issue.go:217-228 | A renewal keeps the lifetime if and only if it is whole seconds between a minute and a year, and within that loses less than a second; renewing again never changes it |
| `Renewal.ClampMeans` | internal/issue/issue.go:217-228 | The lifetime given: ninety days when none is asked for, else the request held between a minute and a year |
| `Renewal.CoverageExact` | internal/renew/renew.go:140-185 | Under every schedule of passes with a given largest gap a lineage that each pass renews when due always has an unexpired certificate, if and only if the gap is within the windows of its first and its renewed lifetime |
| `Renewal.StatusShown` | internal/issue/certificates.go:48-67 | What is shown when: revoked for good, else expired from not-after on, before that expiring in the last thirty days or the last half of the lifetime, whichever is shorter, and active until then |
| `RenewalTable.RunOnce` | internal/renew/renew.go:140-185 | Selects by scan, batch and window, and supersedes each selected row by a fresh one; the count is the number selected |
| `RenewalTable.LinePasses` | internal/issue/certificates.go:281-315 | After a pass over the whole table a lineage again has exactly one row that is not superseded, and it is the renewed or the untouched one as its own window says |
| `RenewalTable.LineageFollows` | internal/renew/renew.go:140-185 | Along every sequence of passes, other lineages changing freely, a lineage has exactly one row that is not superseded, from the time and of the lifetime the passes give it |
| `RenewalTable.LineageValid` | internal/renew/renew.go:140-185 | That row is unexpired at every pass, if and only if the lineage never lapses |
| `RenewalTable.LineageCovered` | internal/renew/renew.go:140-185 | So with a largest gap within the windows every lineage that the batch reaches has a valid certificate at every pass |
| `Renewal.ExpiringIsDue` | internal/issue/certificates.go:52-67 | Whatever is shown as expiring is due, if and only if the shown window is within the renewal window |
| `Renewal.DefaultExpiringIsDue` | internal/config/config.go:125 | With the defaults whatever is shown as expiring is due |
| `Sealed.Redact` | internal/sealed/sealed.go:186-200 | Filled credential fields show the marker, other credential fields are gone, the rest is unchanged |
| `Sealed.Public` | internal/sealed/sealed.go:204-213 | Exactly the fields that are no credential fields |
| `Sealed.Merge` | internal/sealed/sealed.go:218-238 | The loop is the update of MergedField; a newly sent credential is stored as sent |
| `Sealed.MergedField` | internal/sealed/sealed.go:218-238 | An update field by field: what is no credential is as sent; a filled credential other than the marker replaces the stored one; an empty one or one that is no text is cleared; an absent one and the marker leave exactly what was stored |
| `Sealed.ShownField` | internal/sealed/sealed.go:186-213 | What is shown field by field: a filled credential as the marker, another not at all, the rest as stored; and what is public and what is kept as credential |
| `Sealed.OnlyFields` | internal/transfer/backup.go:634-645 | Exactly the credential fields that are present and no empty text |
| `Sealed.RedactThenMerge` | internal/sealed/sealed.go:186-238 | Sending back what a client was shown changes nothing, whatever is stored |
| `Sealed.NothingShown` | internal/sealed/sealed.go:186-200 | Settings that differ only in the contents of filled credentials look the same to a client |
| `Sealed.SplitJoin` | internal/transfer/backup.go:625-645 | Public part and credentials join to the settings if and only if no credential field is the empty text |
| `Sealed.JoinSplits` | internal/transfer/backup.go:533-552 | What is sealed for a restored issuer opens to the credentials and shows the public part it was joined from |
| `BackupLaws.ImportCounted` | internal/transfer/backup.go:285-461 | Every issuer and certificate of the document is reported written or skipped, once, and every permission that resolves is reported once; a failed import changes nothing |
| `BackupLaws.TooLarge` | internal/transfer/backup.go:285-296 | A document beyond 1000 issuers or secrets, or 100000 certificates or permissions, is refused as a whole |
| `BackupLaws.ListedBound` | internal/transfer/backup.go:324-334 | A listing holds at most a thousand issuers, the first by name |
| `BackupLaws.ListedCertsBound` | internal/transfer/backup.go:590-612 | The walk holds at most a hundred thousand certificates, the newest |
| `BackupLaws.SkipLeavesRows` | internal/transfer/backup.go:324-498 | A skip import leaves every stored issuer, certificate and secret as it was |
| `BackupLaws.SkipTwice` | internal/transfer/backup.go:285-498 | Importing the same document again in skip mode changes nothing at all and creates no issuer, certificate or secret; it succeeds if and only if every issuer of the document is listed or within the size limit, as it is whenever the tenant has no more issuers than a listing returns |
| `BackupLaws.GrantsAgain` | internal/transfer/backup.go:439-461 | Importing the same permissions again, over no more known names, changes no grant |
| `BackupModes.ImportKeeps` | internal/transfer/backup.go:285-498 | Either mode removes no row and changes no id, no name and no certificate but its status and chain, and leaves no grant on a resource that is not stored |
| `BackupModes.NoCredentialExported` | internal/transfer/backup.go:160-244 | An export without credentials holds no credential field and no secret |
| `BackupModes.OverwriteKeepsCredentials` | internal/transfer/backup.go:339-358 | A credential-free overwrite keeps every stored credential, and exactly those when the document's settings hold none |
| `BackupModes.OverwriteApplies` | internal/transfer/backup.go:324-382 | After an overwrite every issuer of the document that is not skipped is stored with the document's type, domain, default flag, settings and credentials, sealed under its own id |
| `BackupModes.OverwriteCerts` | internal/transfer/backup.go:384-437 | After an overwrite every certificate of a known issuer has the document's status and chain |
| `BackupModes.OverwriteSecrets` | internal/transfer/backup.go:463-498 | After an overwrite every secret the document names opens to the value of its last entry there and has its kind |
| `BackupModes.SkipCreatesNone` | internal/transfer/backup.go:324-382 | A skip import creates no issuer, if and only if the tenant already has for every issuer of the document its name, or, where it is a default, another default of its domain |
| `BackupModes.SkipAfterComplete` | internal/transfer/backup.go:324-382 | After an import in either mode that skipped no issuer, a skip import creates none |
| `BackupModes.SkipAfterOverwriteCreates` | internal/transfer/backup.go:324-382 | An overwrite that skipped one issuer, after which a skip import creates it |
| `BackupRoundTrip.RestoreIssuers` | internal/transfer/backup.go:324-382 | Restoring exported issuers into an empty tenant inserts every one, whatever their order |
| `BackupRoundTrip.RestoreCerts` | internal/transfer/backup.go:384-437 | Restoring exported certificates inserts every one under the issuer of the same name |
| `BackupRoundTrip.RestoreSecrets` | internal/transfer/backup.go:463-498 | Restoring exported secrets inserts every one, sealed under its new id |
| `BackupRoundTrip.PermissionsRestored` | internal/transfer/backup.go:439-461 | A permission is exported by the restored tenant exactly when it is in the document, though every id is new |
| `BackupRoundTrip.RoundTrip` | internal/transfer/backup.go:160-498 | An export with credentials restored into an empty tenant writes every entry, permissions included, and skips none; the restored tenant holds what the source held but for the ids (issuers with settings and credentials, certificates under the issuer of the same name, secret values, grants), and exports that very document |
| `BackupAgain.OwnExport` | internal/transfer/backup.go:160-498 | A tenant's own export with credentials, imported over it in either mode, succeeds and leaves every row as it was, with the report of its mode |
| `BackupExport.ExportIssuers` | internal/transfer/backup.go:166-184 | The issuers of the document, each once, and the names by id; nothing exactly when something sealed does not open |
| `BackupExport.ExportCerts` | internal/transfer/backup.go:186-198 | The certificates of the document, each once, under the names of their listed issuers |
| `BackupExport.ExportPermissions` | internal/transfer/backup.go:200-218 | Exactly the grants on listed issuers and certificates, each once, under name or serial |
| `BackupExport.ExportSecrets` | internal/transfer/backup.go:220-233 | The secrets with their opened values, each once |
| `BackupExport.Export` | internal/transfer/backup.go:160-244 | Builds the export document, or nothing exactly when credentials are asked for and something sealed does not open |
| `BackupService.Service.Import` | internal/transfer/backup.go:285-322 | Is the import: all stages or, on failure or beyond the limits, nothing; after an overwrite the secrets it names hold the document's values |
| `BackupService.Service.ImportIssuers` | internal/transfer/backup.go:324-382 | The loop is the issuer stage, entry by entry, with its counts |
| `BackupService.Service.Overwrite` | internal/transfer/backup.go:339-358 | Reseals the row under its own id, keeping stored credentials when the document has none; fails on a default clash or oversize |
| `BackupService.Service.ImportCertificates` | internal/transfer/backup.go:384-437 | The loop is the certificate stage with its counts |
| `BackupService.Service.ImportGrants` | internal/transfer/backup.go:439-461 | The loop upserts every permission that resolves and nothing else, and counts those |
| `BackupService.Service.ImportSecrets` | internal/transfer/backup.go:463-498 | The loop is the secret stage; an unreadable value fails it |
| `JsonDepth.Depth` | internal/transfer/backup.go:675-697 | The byte loop is the scan automaton |
| `JsonDepth.ScanRender` | internal/transfer/backup.go:675-697 | Scanning any JSON text, whatever its layout and string contents, raises the maximum to its nesting height and leaves the scan as it was |
| `JsonDepth.DepthExact` | internal/transfer/backup.go:248-254 | The measured depth of every JSON text is its nesting height, so exactly the texts that nest deeper than the bound are refused by it |
| `AcmeDomains.LabelExact` | internal/issue/acmerequests.go:126-147 | A label is one to 63 lower-case letters, digits and hyphens that begins and ends with a letter or digit |
| `AcmeDomains.NameExact` | internal/issue/acmerequests.go:109-147 | A name passes exactly when it is two or more valid labels joined by dots, perhaps behind a wildcard label, within 253 characters |
| `AcmeDomains.Normalise` | internal/issue/acme.go:274-285 | The cleaned names, none empty and none twice |
| `AcmeDomains.NamesGrow` | internal/issue/acme.go:274-285 | Names keep the order in which they first occur |
| `AcmeDomains.ValidateDomains` | internal/issue/acmerequests.go:78-105 | Accepts exactly the lists whose cleaned names are acceptable, and returns those |
| `AcmeDomains.AcceptedIsFixed` | internal/issue/acme.go:346-357 | An accepted list is accepted again unchanged and is the very list a renewal orders |
| `AcmeDomains.AcceptedMeans` | internal/issue/acmerequests.go:78-105 | Exactly the lists are accepted that clean to one to a hundred well-spelled names none of which is one label under a wildcard of the list; what is returned holds every cleaned name once |

## Left out

- X.509, PEM, CSR and key handling, AES-GCM, random ids and serials: library code; ids are fresh by construction.
- `net/url` inside the SPIFFE parser: the parser is a parameter, and the scope theorems say exactly what is needed of it.
- The ACME network flow, DNS providers, Valkey, webhooks, gRPC and HTTP handlers, SQL text and row-level security: input and output.
- Goroutine scheduling below a step, wall-clock timers, and the order in which a channel is drained after a push released its lock.
- ACME renewals of generic certificates (`renewACME` after its domain list), audit vocabularies and the detail guard, statistics and decoded certificate views: they would only add easy members.
- ACME order requests in the job machine: they are completed without jobs.
- The caller's authorization before approve, reject, cancel and retry: it is AuthzService.Authorizer.Check on the request's issuer and is not repeated in the job machine.
- Mutual exclusion between renewal instances and reclaiming of expired leases: the code decides neither.
- Renewal.DueMeans: the fraction is an exact rational rounded down, not a 64-bit float.
- Renewal.CoverageExact: every renewal that a pass selects succeeds; failures are outside it, and RenewalTable adds scan, batch and supersession.
- RenewalTable.LineageCovered: for lineages with fewer than a batch of candidates before them at each pass; Renewal.FullBatchStarves shows one that is not.
- RenewalTable.RunOnce: the workers' renewals one after the other; they touch different rows.
- HubHandover.HandoverExact: the premises of its row; HubRepeats.RepeatedExact says exactly what a loop behind the last id repeats, HubLimits.ReplayWholeIffFits when a buffer takes the replay, and outside the window or after a failed read the reader gets a reset instead.
- JobStore.Store.Once: how each issuance ends is a parameter, and the owner grant of a finished job is the hand-over action of AuthzRuns.
- AuthzService.Authorizer.GrantsOnResource: the order of the grants is left open; it only shows in the list of contributing grants.
- BackupAgain.OwnExport: for issuers sealed and shown as the service leaves them.
- BackupRoundTrip.RoundTrip: for tenants within the export limits (1000 issuers, 100000 certificates); fields that an export does not carry are not part of the model.
- BackupModes.SkipAfterOverwriteCreates: rests on a conflicting insert being counted as skipped, as the in-memory store and `errors.Is(err, store.ErrConflict)` have it; in PostgreSQL the unique violation aborts the import's one transaction, which has no savepoint, so there such an import fails as a whole. The same holds wherever an import of this model skips a conflict.
- BackupExport.Export: entries in any order, where the code sorts issuers and secrets by name and certificates by creation.
- AcmeDomains.NameExact: lengths count characters, which for accepted names are bytes.
- JsonDepth.DepthExact: texts with balanced brackets and closed strings, as every JSON text has; other bytes are refused by the JSON decoder after the bound.
- Offsets and clamping of the external list-query library: limit and offset are arbitrary parameters of ListPages.
