# T-Minus: verified models of calendar federation

T-Minus mirrors events between calendars, computes common free time, commits
group meetings across several users' stores and keeps directory, CalDAV and
audit state in step.  This project models that logic in Dafny and proves what it
keeps.  `dafny verify dfyconfig.toml` checks everything.

| files | part of the system |
|---|---|
| `Journal`, `CanonicalStore` | the rows of the per-user store, its journal, and what keeps them in step |
| `MirrorMessages`, `Projection`, `Recomputation`, `RowEdits`, `Unlinking`, `Batches` | what the store's operations do to events, mirrors, journal and queue |
| `Requests`, `UserGraph` | the per-user store itself: its tables as fields, its operations as methods, and every run of them |
| `OverlappingDeletes` | deletes of one event that overlap at their queue awaits |
| `SchedulingSessions` | sessions and tentative holds of one user |
| `CommitFates`, `GroupCommit`, `OverlappingCommits` | the group commit across users: what lost calls leave, the commit itself, commits that overlap |
| `Intervals`, `BusyIntervals`, `WorkingHours`, `Availability` | interval merging, time zones, the availability answer |
| `DeepWork` | deep-work blocks, their incremental evaluation, cognitive load |
| `TokenRefresh`, `TokenLifetime` | single-flight token refresh as an interleaved protocol, and how long tokens must last |
| `ICalText`, `ICalFolding`, `ICalProperty`, `ICalDates`, `ICalPrinter`, `ICalParser`, `ICalRoundTrip` | iCalendar printing and parsing (RFC 5545) |
| `AuditLog`, `InterleavedAppends` | the hash-chained compliance log; appends that overlap |
| `Discovery`, `CalDavSync` | directory reconciliation, CalDAV polling |
| `CursorWalk`, `Pagination` | following cursors page by page; the event and journal listings |
| `Sequences`, `Strings`, `Optional` | sequences and sets, strings, optional values |

Tables are maps, sets and sequences held in class fields, and the methods that
update them follow the statements of the source.  A queue send, a remote call or
an insert that may fail is a method that fails nondeterministically.  Timestamps
are integer milliseconds, a time zone is a fixed offset in minutes of less than a
day, and the clock, generated ids, the compiled projection with its hash, and
SHA-256 are parameters.  SHA-256 is assumed injective and never to yield the
genesis value.

## Where code and comments disagree

The models follow the code.

- The group commit is commented as all or none (`durable-objects/group-schedule/src/index.ts:222-227`); a failure while creating events leaves events with a prefix of the participants, as lines 301-304 admit (LeftBehindIff says which, AllOrNoneIff when the comment is true).
- `cancelSchedulingSession` is commented as allowed from open and candidates_ready only; it cancels any session that is not committed, cancelled or expired, so also one still gathering (CancelChangesIff, GatheringIsCancelled).
- `commitSchedulingSession` does not look at the status, so a cancelled or expired session can be committed (OnlyCommitLeavesFinalStatus).
- `commitSessionHolds` is commented as committing the chosen candidate's hold; it releases every held hold.
- The unlink journal uses the primary key `unlinkdel:<account>:<event>`; an account that comes to own an id it was unlinked from before cannot be unlinked again: the mirrors are dropped and then the insert fails (UnlinkAccount, and UnlinkAgain for how requests get there).
- Event rows are deleted without a look at `time_allocations`, whose foreign key has no cascade (`packages/shared/src/schema.ts:161-163`): the delete of an allocated event drops its mirrors and fails, and an unlink or upgrade that meets one has by then journaled removals of events that stay (UnlinkAllocated; Run says how the counts go wrong and that they go wrong in no other way).
- `unescapeText` is commented as reversing `escapeText`; it does so exactly when no backslash precedes n or N (UnescapeEscape).
- `computeFreeIntervals` does not clip a busy start to the range end; it is exact exactly as FreeExactIff says, and `computeAvailability` meets that condition.
- `expandNoMeetingsAfterToBusy` keeps, per scanned day, only the earliest cutoff and ends it at that zone's midnight; so with several zones only one constraint counts, and instants past the others can be missed (TwoZonesCutAnEveningShort; CoversAllIff says exactly when).
- The token-rate anomaly is described as more than 100 issuances per hour; the code asks for more than 100 in the period and 100 within less than an hour (HighTokenRate, HundredAndOneFlagged; FlaggedAsDescribedIff says exactly when they differ).
- The audit store reads rows by timestamp, so an append with an earlier timestamp breaks the chain (AppendVerifiesIff); ties are read in insertion order through the index on organization and timestamp.
- A CalDAV server without ctags reads as the empty tag and is never read again after the first poll (Poll); a server whose tags return can leave a wrong body in place for good (ReturningTagDeceives).
- OU filters are described as hierarchical; they are string prefixes, so `/Eng` keeps users of `/Engineering` (SiblingUnitKept, PrefixIsWithinIff).
- A page cursor is split on `|` and ignored unless two parts result, so a page that ends in a key with `|` sends the reader back to the first page for ever (WalkEndsIff).
- The refresh retry is commented as rescuing a caller whose token another caller rotated; it does so only while tokens outlive the refresh buffer (NeverRefusedIff).
- A delete does not look again after its awaits, so overlapping deletes of one event can journal its removal twice (OverlapInStepIff).

## Model

| member | source | states |
|---|---|---|
| UserGraph.UserGraph.ApplyProviderDelta | durable-objects/user-graph/src/index.ts:647-725 | A batch of provider deltas, with any queue send failing anywhere and any event allocated: every delta has its declared effect on the tables its predecessor left and sends the messages that effect calls for (a delete of an allocated event drops its mirrors and no more), the queue grows by exactly these in order, the counters (mirrors_enqueued included) and the error list are exactly those of the deltas that counted or failed, an event of another account changes only if it is a provider event named by the batch whose account has neither calendar nor edge, other events' mirrors stay, origins stay unique and the journal accounts for every event |
| UserGraph.UserGraph.HandleCreated | durable-objects/user-graph/src/index.ts:826-961 | A create updates the addressed event (rebinding a legacy one) or adds one with an unused id; without a payload it throws and changes nothing |
| UserGraph.UserGraph.HandleUpdated | durable-objects/user-graph/src/index.ts:968-1068 | An update of an unknown event creates it; otherwise the addressed row takes the payload, the owner and the next version, with one journal entry |
| UserGraph.UserGraph.HandleDeleted | durable-objects/user-graph/src/index.ts:1075-1154 | A delete finds nothing exactly when no event is addressed; a refused send leaves event, mirrors and journal alone; otherwise one delete per mirror is sent and all its mirrors go, and the event goes with its journal entry exactly when no time allocation references it |
| UserGraph.UserGraph.FindLegacyRebindCandidate | durable-objects/user-graph/src/index.ts:784-824 | Returns the one event that may be rebound, and nothing exactly when no event may be |
| UserGraph.UserGraph.ProjectEdge | durable-objects/user-graph/src/index.ts:1200-1333 | One policy edge, case by case: a new row is written PENDING and sent; a row that stores the hash is left alone unless its replay is asked for; otherwise a row the provider has of an out-of-window event converges locally and any other is written PENDING, its calendar and provider id kept, and sent with the hash it stores |
| UserGraph.UserGraph.ProjectAndEnqueue | durable-objects/user-graph/src/index.ts:1167-1333 | Projecting an event touches only its own mirrors, adds exactly its target keys, stores the hash of the event under its edges, sends the stored hashes, leaves no PENDING row without a message, and is silent on a converged event |
| UserGraph.UserGraph.UpsertCanonicalEvent | durable-objects/user-graph/src/index.ts:1345-1450 | A user edit bumps the version of the row it names and keeps its origin, or inserts the row under an unused id (or the one given) and its unique origin pair, each with its journal entry, or fails without a trace; then it projects the result and sends the hashes stored |
| UserGraph.UserGraph.DeleteCanonicalEvent | durable-objects/user-graph/src/index.ts:1456-1554 | A user delete asks for every mirror, then for the origin event if the origin is a provider account; a refused send leaves the tables alone, with exactly the accepted messages in the queue; then the mirrors go, and the event with its journal entry exactly when no time allocation references it |
| UserGraph.UserGraph.RecomputeProjections | durable-objects/user-graph/src/index.ts:1671-1704 | After a full recompute the mirror keys are exactly the join of live events and policy edges, each row carries the hash of its event under its edge when edges of one pair agree, every message sent carries its row's hash, over a converged table nothing is sent or changed, and over a settled one nothing is sent only if it is converged |
| UserGraph.UserGraph.RecomputeAgain | durable-objects/user-graph/src/index.ts:1671-1704 | With all events in the window and every row written in between, a second recompute is silent exactly when the edges between any two accounts agree; edges that disagree send for ever |
| UserGraph.UserGraph.EnqueueDeleteBatch | durable-objects/user-graph/src/index.ts:3289-3296 | Batches of at most 100, all but the last full, concatenate to the messages; on a refused batch to a prefix of them |
| UserGraph.UserGraph.UnlinkAccount | durable-objects/user-graph/src/index.ts:3317-3471 | Unlinking completes exactly when every batch is accepted, no earlier unlink of the account journaled an id it owns, and no event of the account is allocated; then no event, mirror, edge or calendar mentions the account, others' events are untouched, every remaining mirror is projectable, one 'deleted' entry exists per removed event, and the mirror count counts outbound and inbound rows once; on the duplicate key the account's mirrors are gone and everything else stays; on an allocation the mirrors are gone, the removals are journaled, the events stay and the next unlink will collide |
| UserGraph.UserGraph.UnlinkAgain | durable-objects/user-graph/src/index.ts:3317-3471 | An account that is unlinked, then given an event under one of its former ids, can never be unlinked again: the collision is reached by requests, not only by assumption |
| UserGraph.UserGraph.UnlinkAllocated | durable-objects/user-graph/src/index.ts:3317-3471 | An account with an allocated event is not unlinked, nor is it after the allocation is gone, unless the first attempt was stopped by the queue; and the journal no longer replays to the store |
| CanonicalStore.PruneForgets | durable-objects/user-graph/src/index.ts:1757-1775 | Dropping the account's events and edges and pruning the mirrors leaves no mention of the account |
| UserGraph.UserGraph.RemoveDerived | durable-objects/user-graph/src/index.ts:2882-2920 | Deleting a constraint removes exactly the events it derived, after sending the delete of each of their mirrors; it stops at a refused send or at an allocated event, which loses its mirrors only |
| UserGraph.UserGraph.UpdateTrip | durable-objects/user-graph/src/index.ts:3001-3092 | Editing a trip asks for the deletion of the mirrors of what it derived, leaves exactly one derived event, the edited one, and no event of anything else changed; it succeeds only if no derived event was allocated |
| UserGraph.UserGraph.CreateTripEvent | durable-objects/user-graph/src/index.ts:2840-2874 | Deriving a trip event adds one busy row owned by 'internal', or fails only because its origin pair is taken |
| UserGraph.UserGraph.ExecuteUpgradePlan | durable-objects/user-graph/src/index.ts:3514-3681 | An ICS upgrade replaces exactly the feed account's events and their mirrors by the plan's rows, in order, under ids never used before, other accounts' events untouched; it stops exactly at a row whose origin pair is taken, the rows before it stored; if a feed event is allocated the removals are journaled, the events stay without mirrors and no row is stored |
| UserGraph.UserGraph.Run | durable-objects/user-graph/src/index.ts:647-3681 | Over every run of deltas, edits, deletes, trips, upgrades, unlinks, allocations, edge changes and recomputes, whatever sends fail: no origin pair names two events, no allocation dangles, a live event's version is one plus the 'updated' entries since its last 'created', and 'deleted' entries exceed removals by one for each time an unlink or upgrade journaled the event while an allocation kept it; from a store in step the journal replays to the live events and versions exactly when no request did so |
| Requests.RunInStepIff | durable-objects/user-graph/src/index.ts:3317-3681 | A run from a store in step ends in step exactly when none of its requests journaled a removal it could not carry out |
| CanonicalStore.InStepIffNoneStuck | durable-objects/user-graph/src/index.ts:3385-3413 | The journal replays to the store exactly when no journaled removal failed |
| UserGraph.UserGraph.CreateAllocation | durable-objects/user-graph/src/index.ts:4059-4133 | An allocation is created exactly for a live event that has none |
| UserGraph.UserGraph.DeleteAllocation | durable-objects/user-graph/src/index.ts:4231-4249 | Deleting an allocation frees its event and no other |
| Journal.JournalCounts | durable-objects/user-graph/src/index.ts:826-1154 | Replaying a well-formed journal agrees with counting its entries |
| CanonicalStore.UpsertKeepsStore | durable-objects/user-graph/src/index.ts:826-1068 | An upsert, rebinding included, keeps origin pairs unique and the journal's account of every event |
| CanonicalStore.IsolatedUpsert | durable-objects/user-graph/src/index.ts:784-1068 | Isolation between accounts survives every upsert of a batch |
| CanonicalStore.IsolatedDelete | durable-objects/user-graph/src/index.ts:1075-1154 | Isolation between accounts survives every delete of a batch |
| OverlappingDeletes.OverlapInStepIff | durable-objects/user-graph/src/index.ts:1075-1154 | When deletes overlap at their queue awaits, with other requests in between, the journal stays in step with the store exactly when no event has two deletes that both ran to their end |
| OverlappingDeletes.OverlapCounts | durable-objects/user-graph/src/index.ts:1075-1154 | In every such run the journal holds exactly one removal too many for each completed delete of an event beyond its first |
| OverlappingDeletes.BothFinish | durable-objects/user-graph/src/index.ts:1075-1154 | Two deletes that both find a live event before either finishes are such a run |
| Pagination.WalkEvents | durable-objects/user-graph/src/index.ts:1563-1627 | When no page but the last ends in a row with the separator in its key, following the cursors ends and yields the full filtered, sorted listing with each row once, in pages of exactly the limit but for the last |
| Pagination.WalkJournal | durable-objects/user-graph/src/index.ts:1784-1827 | The same for the journal |
| Pagination.ListCanonicalEvents | durable-objects/user-graph/src/index.ts:1563-1627 | One page is the first rows beyond the cursor, and there is a next cursor exactly when more follow and the page is not empty |
| Pagination.QueryJournal | durable-objects/user-graph/src/index.ts:1784-1827 | The same for one journal page |
| Pagination.CursorRoundTrip | durable-objects/user-graph/src/index.ts:1595-1602 | A cursor is understood exactly when neither the start nor the id contains the separator, and ignored otherwise |
| Pagination.WalkEndsIff | durable-objects/user-graph/src/index.ts:1563-1627 | Following the cursors reaches a page without one exactly when no row at a multiple of the limit that more rows follow has the separator in its start or id |
| Pagination.EventsAsked | durable-objects/user-graph/src/index.ts:1595-1624 | The cursor of a row with the separator in its key fetches the first page again, that of any other row the rest of the listing |
| CursorWalk.EndsIffClean | durable-objects/user-graph/src/index.ts:1563-1627 | For any listing whose cursors lead on or back to the start, the walk ends exactly when no page but the last ends in a row whose cursor leads back |
| Pagination.CursorIsSuffix | durable-objects/user-graph/src/index.ts:1595-1613 | Querying beyond a row of the listing returns the rest of the listing |
| Pagination.SelectMembers | durable-objects/user-graph/src/index.ts:1569-1613 | A listing holds exactly the rows that pass the filter and the cursor |
| SchedulingSessions.HoldFinalRun | durable-objects/user-graph/src/index.ts:7602-7952 | Over every run a hold that has left 'held' keeps its status, expiry and provider id |
| SchedulingSessions.NoneHeldRun | durable-objects/user-graph/src/index.ts:7254-7952 | If holds are stored only on sessions that are neither cancelled nor expired, such a session never has a held hold, through cancel, lazy expiry, stale expiry and all-terminal expiry |
| SchedulingSessions.OnlyCommitLeavesFinalStatus | durable-objects/user-graph/src/index.ts:7374-7409 | A cancelled, expired or committed session changes exactly when a commit of it changes its status or commitment |
| SchedulingSessions.CancelChangesIff | durable-objects/user-graph/src/index.ts:7502-7552 | A cancel changes a session exactly when its status is open, candidates_ready or gathering; so it matches its documentation except for gathering |
| SchedulingSessions.GatheringIsCancelled | durable-objects/user-graph/src/index.ts:7502-7552 | A gathering session is cancelled and its held holds released |
| SchedulingSessions.Scheduling.Step | durable-objects/user-graph/src/index.ts:7210-7952 | Every request on the session tables, run as its statements, has the effect its operation denotes |
| SchedulingSessions.Scheduling.ExpireStale | durable-objects/user-graph/src/index.ts:7561-7592 | Expiring stale sessions one by one expires exactly the stale ones and releases exactly their held holds; the count is theirs |
| SchedulingSessions.Scheduling.StoreHoldsRows | durable-objects/user-graph/src/index.ts:7602-7625 | Inserting holds stops at the first key violation, keeps the rows before it, and succeeds exactly when there is none |
| SchedulingSessions.Scheduling.CommitSessionHolds | durable-objects/user-graph/src/index.ts:7776-7857 | Every held hold of the session is released and reported, no other row changes |
| SchedulingSessions.Scheduling.ExtendHolds | durable-objects/user-graph/src/index.ts:7872-7902 | Only held holds of the session take a new expiry, and they are counted |
| SchedulingSessions.CalmStep | durable-objects/user-graph/src/index.ts:7210-7952 | No request but a commit of the session makes it committed or changes its commitment or candidates |
| GroupCommit.GroupSchedule.CommitGroupSession | durable-objects/group-schedule/src/index.ts:229-325 | With every remote call free to fail, before or after taking effect, and others acting in between: the registry says 'committed' only if every participant's session is committed to one candidate; a normal return means each participant, all distinct, was delivered exactly one event at the candidate's times in this call, whose id is the one returned and the one the session is committed with; a failure while creating events leaves no session committed by this call, and served whom some fate of the calls serves; a failure while committing leaves every participant served; it gets past creating events only if no participant held the group event at the start; a refusal happens exactly on its guards and leaves the registry and the calendars alone |
| CommitFates.LeftBehindIff | durable-objects/group-schedule/src/index.ts:261-304 | What lost calls can leave behind is exactly any prefix of the participants up to the first that is blocked or repeated |
| CommitFates.AllOrNoneIff | durable-objects/group-schedule/src/index.ts:222-304 | Whatever calls are lost, either every participant gets the event or none does, exactly when the first participant already holds the group event or is the only one |
| CommitFates.TwoParticipantsDiffer | durable-objects/group-schedule/src/index.ts:222-342 | With two different participants the guarantee holds only if the first is blocked; otherwise one lost call leaves the first alone with the event |
| GroupCommit.GroupSchedule.CommitAgain | durable-objects/group-schedule/src/index.ts:229-325 | After a commit that left an event behind, the next one fails |
| OverlappingCommits.OverlapStaysTruthful | durable-objects/group-schedule/src/index.ts:229-325 | However many commits of a session overlap, whatever calls are lost and whatever else happens to the sessions, the registry says committed only if every session is committed to one candidate, and no participant gets two events, while nobody deletes a delivered event |
| OverlappingCommits.OnlyLeadCancels | durable-objects/group-schedule/src/index.ts:229-325 | Of overlapping commits only the one whose event the first participant holds ever has a session to cancel |
| GroupCommit.GroupSchedule.Meanwhile | durable-objects/group-schedule/src/index.ts:204-223 | Cancels, expiries, hold updates and retries between commit calls never make the registry's 'committed' untrue |
| GroupCommit.GroupSchedule.CreateEvents | durable-objects/group-schedule/src/index.ts:261-288 | Creating events serves a prefix of the participants in order, each once: those whom some fate of the calls serves, from the ones blocked at the start; it gets through only if it serves all |
| GroupCommit.GroupSchedule.RollBack | durable-objects/group-schedule/src/index.ts:300-317 | The rollback commits no session and never leaves the registry 'committed' unless it was and still is true |
| GroupCommit.CommitmentsKept | durable-objects/user-graph/src/index.ts:7374-7409 | A commitment survives every step that is not a commit of the session |
| TokenRefresh.SingleFlight | durable-objects/account/src/index.ts:580-643 | Under every interleaving of getAccessToken callers, at most one refresh is outstanding, and whenever none is, the stored refresh token is the provider's current one |
| TokenRefresh.NoInvalidGrant | durable-objects/account/src/index.ts:580-643 | If refreshed tokens outlive the five-minute buffer for the run, no caller ends in invalid_grant, even one that began a refresh with a stale token |
| TokenLifetime.NeverRefusedIff | durable-objects/account/src/index.ts:580-622 | Over all runs of at most a given time in which every granted token lasts at least a given life, no caller ends in invalid_grant exactly when the first tokens stay fresh throughout or a token granted the moment they go stale does |
| TokenRefresh.SafeStep | durable-objects/account/src/index.ts:629-643 | Every step keeps the promise field naming the one outstanding flight and the current refresh token in our hands |
| TokenRefresh.GracefulStep | durable-objects/account/src/index.ts:970-1044 | Every step keeps that only the first refresh token is ever sent stale, and that its refusal is recoverable |
| ICalText.EscapeIsByCharacter | packages/shared/src/ical.ts:30-36 | The four replacements of escapeText in sequence escape the text character by character |
| ICalText.UnescapeEscape | packages/shared/src/ical-parse.ts:44-50 | Unescaping undoes escaping exactly on texts in which no backslash is followed by n or N |
| ICalFolding.FoldLine | packages/shared/src/ical.ts:46-64 | A line is folded into pieces of at most 75 characters |
| ICalFolding.FoldRoundTrip | packages/shared/src/ical-parse.ts:28-35 | Unfolding a folded line gives the line back, for every line without CR or LF |
| ICalFolding.UnfoldLine | packages/shared/src/ical-parse.ts:28-35 | The same inside any text that follows |
| ICalFolding.DocumentLines | packages/shared/src/ical-parse.ts:130-132 | Reading a document back yields its content lines, whichever of them were folded |
| ICalProperty.ParsePropertyLine | packages/shared/src/ical-parse.ts:63-115 | The property line parser computes name, parameters and value by its loops |
| ICalProperty.ColonIsFirst | packages/shared/src/ical-parse.ts:66-80 | The value starts after the first colon that an even number of quotes precedes |
| ICalProperty.ParsePlain | packages/shared/src/ical-parse.ts:63-115 | A printed NAME:value line reads as that name and value, whatever the value contains |
| ICalProperty.ParseWithParam | packages/shared/src/ical-parse.ts:63-115 | A printed NAME;KEY=val:value line reads as that name, parameter and value |
| ICalProperty.TrimContent | packages/shared/src/ical-parse.ts:141-142 | Trimming a content line trims only the end of its value |
| ICalDates.DateTimeRoundTrip | packages/shared/src/ical-parse.ts:229-267 | A date-time comes back without its fraction, and without its Z when a zone is also named; so unchanged exactly when it has neither a fraction nor both |
| ICalDates.DateRoundTrip | packages/shared/src/ical-parse.ts:229-238 | An all-day date comes back unchanged |
| ICalPrinter.BuildVEvent | packages/shared/src/ical.ts:169-225 | The VEVENT text is the event's folded lines: exactly one line per property the event has, in order |
| ICalPrinter.EntriesAreFields | packages/shared/src/ical.ts:169-221 | A VEVENT carries each of the event's properties once and no other |
| ICalPrinter.CollectTimezones | packages/shared/src/ical.ts:113-126 | Every zone some event names, once, and no other |
| ICalPrinter.BuildVCalendar | packages/shared/src/ical.ts:252-290 | The document of the kept events, after the header and one VTIMEZONE per zone they name |
| ICalParser.ParseVEvents | packages/shared/src/ical-parse.ts:130-212 | The line loop with its flag and property record computes the scan of the logical lines |
| ICalRoundTrip.PrintAndParse | packages/shared/src/ical-parse.ts:130-212 | Parsing a built calendar returns one event per kept event, in order, with the expected fields, for every event whose ids, dates, zones and rule contain no line break (zones also no quote, colon or semicolon) and whose texts contain no CR |
| ICalRoundTrip.DocumentRoundTrip | packages/shared/src/ical-parse.ts:130-212 | The same for the document of any events and zones |
| ICalRoundTrip.TextSurvives | packages/shared/src/ical.ts:30-36 | Through escaping, trimming and unescaping a text survives exactly when no backslash is followed by n or N and it does not end in whitespace other than a newline |
| ICalRoundTrip.TextsComeBack | packages/shared/src/ical.ts:197-208 | Title (or '(No title)'), description and location come back exactly when each survives |
| ICalRoundTrip.FieldsComeBack | packages/shared/src/ical.ts:169-221 | UID, recurrence rule, dates and their TZID or VALUE parameters come back as written |
| ICalRoundTrip.AllDayStartComesBack | packages/shared/src/ical-parse.ts:229-238 | An all-day start survives printing, parsing and conversion |
| ICalRoundTrip.TimedStartComesBack | packages/shared/src/ical-parse.ts:229-267 | A start given to the second survives printing, parsing and conversion unless it names a zone and carries a Z |
| Intervals.MergeTimeIntervals | packages/shared/src/deep-work.ts:117-135 | The merge that extends the last span in place computes the common merge |
| Intervals.MergeOverlapping | durable-objects/group-schedule/src/intersection.ts:87-120 | The merge that keeps the current span in a variable computes the same merge |
| Intervals.MergeCanonical | packages/shared/src/deep-work.ts:117-135 | Merges of non-empty spans are equal exactly when the spans cover the same points, and a sorted, strictly separated list is its own merge; so the merge is idempotent and independent of input order |
| Intervals.MergePoints | durable-objects/group-schedule/src/intersection.ts:87-120 | Merging neither loses nor adds an instant |
| Intervals.MergeNormal | durable-objects/group-schedule/src/intersection.ts:87-120 | Merged non-empty spans are non-empty, sorted and strictly separated |
| Intervals.ComputeFreeIntervals | durable-objects/user-graph/src/index.ts:8791-8822 | The cursor loop computes the gaps between the busy spans |
| Intervals.FreePoints | durable-objects/user-graph/src/index.ts:8791-8822 | Exactly which instants the gaps contain, for any spans in start order |
| Intervals.FreeExactIff | durable-objects/user-graph/src/index.ts:8791-8822 | The gaps are exactly the uncovered instants of the range if and only if no gap is left open before a span that starts after the range end |
| BusyIntervals.MergeIntervals | durable-objects/user-graph/src/index.ts:8716-8766 | The merge with account union computes the sweep |
| BusyIntervals.MergeBusySpans | durable-objects/user-graph/src/index.ts:8716-8766 | Its spans are the common merge of the input spans |
| BusyIntervals.MergeAccounts | durable-objects/user-graph/src/index.ts:8716-8766 | A merged interval carries exactly the accounts of the raw intervals inside it |
| BusyIntervals.MergeBusyIntervals | durable-objects/group-schedule/src/intersection.ts:46-69 | Merging the group's busy time keeps every user's busy instants exactly and names only synthetic group accounts |
| Availability.ComputeAvailability | durable-objects/user-graph/src/index.ts:8014-8125 | The free intervals are non-empty, in order, inside the range and contain exactly the instants that no selected event, working-hours gap, cutoff, buffer or milestone covers; within the range they are the complement of the merged busy intervals, whose accounts are those of the events inside them |
| Availability.FreeIsComplement | durable-objects/user-graph/src/index.ts:8791-8822 | For arbitrary raw spans the gaps of their merge are exactly the uncovered instants of the range |
| Availability.AnchoredMerge | durable-objects/user-graph/src/index.ts:9158-9203 | A cooldown buffer may start after the range, but never a merged interval |
| Availability.ExpandBuffers | durable-objects/user-graph/src/index.ts:9158-9203 | Buffers expand to exactly the travel, preparation and cooldown spans of the events they apply to |
| WorkingHours.TimestampForTime | durable-objects/user-graph/src/index.ts:9006-9064 | The instant returned has exactly the local date of the base and the local time asked |
| WorkingHours.ScanMissesNoDay | durable-objects/user-graph/src/index.ts:8880-8900 | The scan padded by a day on both sides meets the local day of every instant of the range |
| WorkingHours.ExpandWorkingHours | durable-objects/user-graph/src/index.ts:8859-8972 | An instant of the range is reported outside hours exactly when no constraint's local weekday and time window contains it |
| WorkingHours.ExpandNoMeetingsAfter | durable-objects/user-graph/src/index.ts:9289-9370 | The marked instants are exactly those of the range whose local time is past the cutoff of one constraint, the one whose cutoff comes first on the local day of the range start |
| WorkingHours.CoversAllIff | durable-objects/user-graph/src/index.ts:9289-9370 | Every instant past some cutoff is marked exactly when no constraint's evening runs on beyond the end of the first one's local day, before its next cutoff and inside the range |
| WorkingHours.SharedZoneCoversAll | durable-objects/user-graph/src/index.ts:9289-9370 | With one shared zone an instant of the range is marked exactly when its local time is past some cutoff |
| WorkingHours.TwoZonesCutAnEveningShort | durable-objects/user-graph/src/index.ts:9289-9370 | 18:00 an hour east of UTC and 20:00 in UTC leave an instant past the second cutoff unmarked |
| DeepWork.IncrementalEqualsRecomputed | packages/shared/src/deep-work.ts:437-509 | The unaffected blocks plus the remaining fragments of evaluateDeepWorkImpact are exactly the blocks detected after adding the event, and the minutes lost are the exact difference |
| DeepWork.DetectDeepWorkBlocksForDay | packages/shared/src/deep-work.ts:360-422 | Detection computes the long enough gaps of the day's merged events |
| DeepWork.EvaluateDeepWorkImpact | packages/shared/src/deep-work.ts:437-509 | The evaluation loop computes affected blocks, fragments and minutes lost |
| DeepWork.GapsAfterEvent | packages/shared/src/deep-work.ts:360-422 | The gaps after adding an event are the old gaps with the event cut out |
| DeepWork.ReplacedTotal | packages/shared/src/deep-work.ts:480-505 | Total block time before equals total after plus the minutes lost, and a fragment list is never longer than what it replaces |
| DeepWork.ComputeDeepWorkBlocks | packages/shared/src/cognitive-load.ts:278-321 | The cognitive-load block count is the number of blocks detection finds at 120 minutes |
| DeepWork.MeetingsAndGapsFillTheDay | packages/shared/src/cognitive-load.ts:200-239 | Merged meeting time plus all gaps is the working window |
| DeepWork.ComputeMeetingDensity | packages/shared/src/cognitive-load.ts:200-239 | The density is the percentage of the window that is not a gap, and 0 for an empty or reversed window |
| AuditLog.SameLastHashSameLog | packages/shared/src/compliance-audit-log.ts:256-337 | Two verifying logs with the same last hash are equal entry by entry |
| AuditLog.TamperingDetected | packages/shared/src/compliance-audit-log.ts:256-337 | Any change to a verifying log that keeps its last hash leaves some entry unlinked |
| AuditLog.AppendVerifiesIff | packages/shared/src/compliance-audit-log.ts:231-252 | An append keeps a log verifying exactly when no row of the organization carries a later timestamp |
| AuditLog.SerializedAppendsVerify | packages/shared/src/compliance-audit-log.ts:231-252 | Serialized appends whose timestamps never go back record exactly the inputs, in order, in a log that verifies |
| AuditLog.ComplianceAuditStore.AppendAuditEntry | packages/shared/src/compliance-audit-log.ts:231-252 | An unknown action throws and changes nothing; otherwise the entry returned is the input chained to the last hash under its own hash, it is stored, other organizations' rows are untouched, and a verifying log still verifies exactly when no row carries a later timestamp |
| AuditLog.ComplianceAuditStore.VerifyHashChain | packages/shared/src/compliance-audit-log.ts:265-337 | Valid exactly when every examined entry links and hashes; otherwise the least bad index is named |
| AuditLog.HighTokenRate | packages/shared/src/compliance-audit-log.ts:453-467 | The anomaly is raised exactly when there are more than 100 issuances and some hour contains at least 100 of them |
| AuditLog.FlaggedAsDescribedIff | packages/shared/src/compliance-audit-log.ts:453-467 | The anomaly agrees with its description, more than 100 issuances in an hour, exactly unless there are more than 100 and the busiest hour holds exactly 100 |
| AuditLog.HundredAndOneFlagged | packages/shared/src/compliance-audit-log.ts:453-467 | A hundred issuances at once and one an hour or more later raise the anomaly although no hour holds more than a hundred |
| InterleavedAppends.ForksIff | packages/shared/src/compliance-audit-log.ts:231-252 | Overlapping appends of one organization leave a log that verifies exactly when nothing was stored between any append's reading of the last hash and its own store |
| InterleavedAppends.BothReadFirst | packages/shared/src/compliance-audit-log.ts:231-252 | Two appends that both read the last hash before either is stored fork the chain |
| Discovery.DiscoveryService.DiscoverUsers | packages/shared/src/discovery-service.ts:234-369 | A run fails exactly when an id not yet known is listed twice; with distinct ids the run leaves exactly the reconciled records and reports exactly the new, changed and removed users; in any case removed users stay as they are and removedAt is set exactly on removed users |
| Discovery.ReconciledAgrees | packages/shared/src/discovery-service.ts:262-357 | After a run every listed user not already removed has its directory status and every other known user is removed |
| Discovery.SecondRunIsIdle | packages/shared/src/discovery-service.ts:262-357 | A second run over the same directory reports nothing and changes nothing |
| Discovery.DiscoveryService.TransitionUserStatus | packages/shared/src/discovery-service.ts:468-498 | A transition happens exactly when the lifecycle allows it, and removal sets removedAt |
| Discovery.DiscoveryService.FederateDiscoveredUser | packages/shared/src/discovery-service.ts:384-431 | Only an active known user is federated; one already federated keeps its account |
| Discovery.DiscoveryService.CleanupRemovedUsers | packages/shared/src/discovery-service.ts:507-545 | Cleanup deletes exactly the users removed before the cutoff |
| Discovery.Filtered | packages/shared/src/discovery-schemas.ts:217-252 | The filters keep exactly the users inside the units and not excluded |
| Discovery.PrefixIsWithinIff | packages/shared/src/discovery-schemas.ts:215-236 | The prefix test is containment in the unit, for every path, exactly when the unit ends in a slash |
| Discovery.SiblingUnitKept | packages/shared/src/discovery-schemas.ts:215-236 | The unit /Eng keeps a user of /Engineering |
| CalDavSync.CalDavReplica.Poll | packages/shared/src/caldav-client.ts:245-305 | With faithful etags the replica equals the server after a poll exactly when the ctag moved or nothing changed |
| CalDavSync.CalDavReplica.Follow | packages/shared/src/caldav-client.ts:245-305 | Polling a server whose equal ctags mean equal content keeps the replica equal to the server after every poll |
| CalDavSync.IncrementalSync | packages/shared/src/caldav-client.ts:245-305 | Not found, unchanged, or exactly the new and changed hrefs by etag, their bodies as far as they are still there, the vanished hrefs, and the state of the tags read |
| CalDavSync.CalDavReplica.FollowRacing | packages/shared/src/caldav-client.ts:245-305 | Whatever the server changes between the three requests of any polls, every poll it lets finish undisturbed leaves the replica equal to the server, if tags never return |
| CalDavSync.CalDavReplica.ReturningTagDeceives | packages/shared/src/caldav-client.ts:245-305 | Tags that are faithful but return can leave a wrong body in the replica that no later poll repairs |
| CalDavSync.DeltaReproduces | packages/shared/src/caldav-client.ts:272-297 | A delta computed from faithful etags turns one snapshot's bodies into the other's |

## Left out

- UserGraph.UserGraph.Run: each request runs to its end before the next starts; what overlapping deletes do is stated on its own in OverlappingDeletes, other overlaps at queue awaits are not modelled, and neither are GDPR wipes, which erase the journal
- OverlappingDeletes.OverlapInStepIff: steps are values rather than statements on the class fields, a removed id is never used for a new event, and a delete the database refuses counts as refused
- OverlappingCommits.OverlapStaysTruthful: steps are values; the guards before a commit are not looked at, so every commit may begin; participants deleting a delivered event while commits run are not modelled
- InterleavedAppends.ForksIff: rows are stored in timestamp order; what a late timestamp does is stated by AppendVerifiesIff for appends that do not overlap
- UserGraph.UserGraph.CreateAllocation: categories, rates and their validation are not modelled, only which event is referenced
- UserGraph.UserGraph.DeleteCanonicalEvent: participant rows, which cascade with the event, are not modelled
- UserGraph.UserGraph.ProjectAndEnqueue: which queue (write, priority or delete) a message takes is not modelled
- UserGraph.UserGraph.ExecuteUpgradePlan: the matching of feed and provider events is not modelled; its result, the rows to store, is a parameter
- GroupCommit.GroupSchedule.CommitGroupSession: creating a group session, the solver and the gathering of availability are not modelled; a participant deleting the delivered event while the commit is still running is not either
- TokenRefresh.SafeStep: the account object is a value stepped by functions, one step per stretch of code without an await, rather than a class
- TokenRefresh.SingleFlight: initialize, rotateKey and revokeTokens running beside a refresh are outside the guarantee and the model; so are lost responses
- WorkingHours.TimestampForTime: zones are fixed offsets; daylight saving rules are those of the runtime
- Availability.ComputeAvailability: milestones and trips arrive as intervals inside the range, their expansion is not modelled; the source compares timestamps as text (`durable-objects/user-graph/src/index.ts:8733-8744`, 8801-8818) where the model compares milliseconds, so it does not capture that `…T00:00:00.000Z` sorts before `…T00:00:00Z`, which can add a free interval of length zero, nor that an offset such as `+02:00` sorts by its local time
- Intervals.MergeTimeIntervals: the source extends the first interval tuple it was given in place, so a caller that keeps the tuple sees it change; here spans are values
- DeepWork.IncrementalEqualsRecomputed: minutes are exact reals, without floating-point rounding
- DeepWork.ComputeMeetingDensity: weekly averages, context switches, fragmentation and the aggregate score are not modelled
- ICalRoundTrip.PrintAndParse: characters are code points, so a character outside the basic plane counts once where the source counts two code units, and folding never splits it; upper-casing of property names is ASCII only
- AuditLog.HighTokenRate: the report's counters and the other anomalies are not modelled
- Discovery.DiscoveryService.DiscoverUsers: paging through the directory with its request budget is not modelled; a row is identified by its directory id, so discovery ids are not
- Pagination.WalkEvents: rows inserted or deleted between two pages are not modelled
- HTTP routing, provider clients, XML, encryption, onboarding, VIPs, relationships, commitments and health reports: plumbing or easy members
