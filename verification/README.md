# kbeads: a verified model

kbeads is a work tracker: beads (work items) with labels, dependencies and
gates, a server with an event stream, and a command line. This Dafny project
models the parts whose logic is hard to see from any one function, and proves
what they promise. `dafny verify dfyconfig.toml` checks all of it.

| files | component |
|---|---|
| `Topics`, `EventRing`, `SseHub`, `HubProtocol`, `HubRuns`, `HubSchedules` | the SSE hub: topic patterns, the ring buffer as an object over an array, a transition system for every interleaving of broadcasts and connections, its laws over runs, and the runs where an expectation fails |
| `SseWire` | the SSE text format, its writer and the client's line parser |
| `FilterSql` | the compiler from bead filters to WHERE clauses with numbered placeholders |
| `Beads`, `Store`, `Validation`, `Lifecycle`, `Gates`, `BeadServer`, `ServerRuns`, `Ready` | tables, bead operations, stop gates, whole runs of the server, and the two readings of "blocked" |
| `Presence` | the roster of live agents and its reaper |
| `Templates`, `Formula`, `Molecules`, `MoleculeShape`, `MoleculeLaws`, `MoleculeUndo`, `MoleculeSteps` | formulas: substitution, conditions, validation, pouring into a molecule, burning |
| `GraphEdges`, `GraphParents`, `GraphPrune`, `Graph`, `GraphLaws`, `GraphExact`, `GraphService` | the graph response: edge union, parents, promotion, agents, pruning, and the whole request over the tables |
| `Advice`, `Subjects` | the two advice matchers and the claim diff; event subjects |
| `Strings`, `Wrappers` | Go's string operations and small shared types |

Code that changes state is written as methods over classes or arrays and proved
against a specification function; the laws are then lemmas about those
functions or about whole runs. Identifiers, clocks, failing store calls and the
results of queries are parameters. Go's map iteration order is open everywhere.

Where code and documentation differ the code is followed: `eventsSince` returns
what is still buffered when the id is too old, although the comment above it
(`internal/server/sse.go:110`) promises nil; the list total is 0 on an empty
page past the end; `NoOpenDeps` ignores the status `blocked`; the SSE client
does not strip a leading space of data as the WHATWG HTML standard, section
9.2.6, would.

Facts taken as given where a lemma says so: group numbers that are not given to
labels without a group (`Advice.NoCollision`), generated identifiers that are new,
distinct and free of `>` and `:` (`MoleculeShape.Fresh`, `GraphEdges.IdLike`),
and foreign keys that hold (`Store.Linked`, kept by every run). The table
constraints are those of the migration that creates the schema.

## Model

| member | source | states |
|---|---|---|
| `Topics.MatchTopicPattern` | internal/server/sse.go:155-177 | Splits both sides at dots and decides the recursive segment meaning: `*` is one segment, `>` is one or more remaining segments, all else literal. The early return on equal strings is covered by the same meaning. |
| `Topics.MatchesTopic` | internal/server/sse.go:140-150 | An empty filter list matches every topic; otherwise some pattern must match. |
| `Topics.EveryTopicMatchesItself` | internal/server/sse.go:156-158 | Any segment list, wildcards included, matches itself, so the string-equality fast path never changes the answer. |
| `Topics.MatchByPosition` | internal/server/sse.go:163-176 | The recursive meaning equals the positional one the loop follows: agreement up to the first `>`, or equal lengths when there is none. |
| `Topics.LiteralMatchesOnlyItself` | internal/server/sse.go:171-176 | A pattern without wildcard segments matches exactly itself. |
| `Topics.SuffixWildcardIsPrefix` | internal/server/sse.go:164-167 | `p.>` (p literal) matches exactly the topics that start with `p.`. |
| `EventRing.PutHolds` | internal/server/sse.go:67-74 | One ring write keeps the ring equal to the last min(n, N) events of the full history, for any capacity N > 0. |
| `EventRing.SlotOfWrite` | internal/server/sse.go:119-126 | The oldest-to-newest walk visits, at position i, the slot of the i-th oldest buffered write. |
| `EventRing.SlotsFromComplete` | internal/server/sse.go:119-130 | Every buffered write with a larger id has its slot among those the walk returns. |
| `EventRing.SlotsFromSound` | internal/server/sse.go:119-130 | Every slot the walk returns holds a buffered write with a larger id. |
| `EventRing.SlotsFromDistinct` | internal/server/sse.go:119-130 | The walk returns no slot twice. |
| `SseHub.Hub.Broadcast` | internal/server/sse.go:59-88 | Serialised: the history grows by the event with the next id, the ring is written in place as the ring model says, and the event is appended to the queue of each client that has no filters or a matching one and fewer than 64 events waiting; other queues are unchanged. |
| `SseHub.Hub.FanOut` | internal/server/sse.go:78-87 | Whatever order clients are visited in, each matching client with room gets the event and the others are unchanged. |
| `SseHub.Hub.Subscribe` | internal/server/sse.go:91-100 | A fresh client with an empty queue joins the set; nobody else changes. |
| `SseHub.Hub.EventsSince` | internal/server/sse.go:111-135 | After n serialised broadcasts: exactly the ids max(k, n-N)+1 to n, in increasing order. |
| `SseHub.Hub.Buffered` | internal/server/sse.go:119-126 | The array slot read for position i holds the i-th oldest buffered event. |
| `SseHub.ReplayGapless` | internal/server/sse.go:109-135 | Replay from k misses nothing if and only if k >= n-N (the code returns what is still buffered, although its comment promises nil for an id that is too old). |
| `SseHub.TailIs` | internal/server/sse.go:111-135 | What replay returns is the last min(n-k, buffered) events of the history, in order. |
| `HubProtocol.StepKeepsInv` | internal/server/sse.go:59-249 | Each atomic step (take id, ring write, fan-out visit, join, snapshot, topic test of a slot, read of its id, of its topic, of its data, drain, leave) keeps the invariant linking ring, broadcasts and connections. |
| `HubProtocol.RunKeepsInv` | internal/server/sse.go:59-249 | The invariant holds after every interleaving of those steps from an empty hub. |
| `HubRuns.NoGapOnReconnect` | internal/server/sse.go:199-235 | For every interleaving: a matching event above Last-Event-ID whose broadcast finished was replayed whole, or had its slot overwritten before the last of the four looks at it, or went down the queue, or was dropped at a full queue. |
| `HubRuns.NoGapAfterJoin` | internal/server/sse.go:77-100 | A matching event written after the client joined, whose broadcast finished, was queued or dropped, whatever the connection was doing. |
| `HubRuns.DropsOnlyWhenFull` | internal/server/sse.go:81-86 | Over runs: if an event counts as dropped at a connection, an earlier step of the run was the visit of that very event, matching, with the queue at capacity. |
| `HubRuns.OnlyBroadcastsOnce` | internal/server/sse.go:78-87 | What goes down a queue was broadcast and matches, each event at most once; queues never exceed 64. |
| `HubRuns.ReceivedInOrder` | internal/server/sse.go:224-241 | Over any run a connection is first in, first out: what it has received, and what it was sent, stays a prefix of what it has received and was sent later. |
| `HubRuns.FrameOrigins` | internal/server/sse.go:211-222 | A replayed frame takes id, topic and data each from the broadcast its slot held when that field was read; no id is replayed twice. |
| `HubRuns.FrameIsBroadcastIff` | internal/server/sse.go:245-249 | A replayed frame is a broadcast event that matches the filters if and only if the slot held, at the later looks, no event differing in what was read, and the event whose id was read matches. |
| `HubRuns.UntouchedFrame` | internal/server/sse.go:211-222 | In particular it is the event tested, whole, if the slot was not used again between the test and the last read. |
| `HubSchedules.UntestedFrame` | internal/server/sse.go:211-222 | From any reachable hub in which replay has tested the slot that is written next: any pending broadcast, whatever its topic, can be what the client is sent. |
| `HubSchedules.MixedFrame` | internal/server/sse.go:245-249 | Likewise between the reads: old id with the new topic and data. |
| `HubSchedules.ReplayIgnoresFilter` | internal/server/sse.go:211-222 | For every ring capacity there is a run in which a client is replayed an event that none of its filters matches. |
| `HubSchedules.ReplayMixesEvents` | internal/server/sse.go:245-249 | And one in which it is replayed an event that was never broadcast. |
| `HubRuns.NothingAfterLeaving` | internal/server/sse.go:103-107 | Once a connection has left, no step of the rest of any run changes it: nothing is queued, sent, dropped or replayed any more. |
| `HubRuns.MissedIff` | internal/server/sse.go:77-107 | Exactly what a connection misses: a matching event written since it joined is neither received nor dropped if and only if it waits in the queue, or its broadcast is still to come past, or the connection left before it came past. |
| `HubRuns.NoLossAcrossConnections` | internal/server/sse.go:180-241 | A client that received an event, left, and replays from its id under the same filters: every finished matching event written since it first joined was received, dropped at a full queue, has a larger id and is accounted for at the second connection, or has a smaller id, was overtaken by the received event, and was undrained when the first connection left or came past after that. |
| `HubSchedules.OvertakenIsLost` | internal/server/sse.go:59-88 | That last case is a loss: for every capacity there is a run in which an overtaken event comes past after the client left and is never delivered to it, since ids are taken before the ring is written. |
| `SseWire.DecimalRoundTrip` | internal/server/http_bus_sse.go:146-148 | A written id reads back as the same number. |
| `SseWire.DecimalPlain` | internal/server/http_bus_sse.go:146-148 | Ids are printed without leading zeros. |
| `SseWire.FrameText` | internal/server/sse.go:236-249 | The text of a frame and of a keepalive comment, character by character. |
| `SseWire.BlockRead` | internal/eventbus/sse_client.go:92-127 | A block of the three fields yields one event if its data is not empty and decodable: id and name without surrounding white space, data as it is. |
| `SseWire.DataJoined` | internal/eventbus/sse_client.go:120-126 | Several data lines are joined with line feeds. |
| `SseWire.LineSkipped` | internal/eventbus/sse_client.go:114-128 | A comment or any other line changes nothing. |
| `SseWire.CarriageReturnDropped` | internal/eventbus/sse_client.go:85-92 | One carriage return in front of a line feed is dropped. |
| `SseWire.ReadEvents` | internal/eventbus/sse_client.go:89-129 | The scan loop computes the line-by-line meaning of the stream: fields gathered, events dispatched at blank lines when there is decodable data. |
| `SseWire.ItemRead` | internal/eventbus/sse_client.go:92-127 | One complete frame or comment at the front of a stream yields its event, and parsing goes on from a clean state. |
| `SseWire.RoundTrip` | internal/server/http_bus_sse.go:146-154 | Parsing any sequence of written frames and keepalives yields exactly the written events, in order. |
| `SseWire.CutStream` | internal/eventbus/sse_client.go:89-129 | Parsing any cut of that stream yields exactly the events of the frames written completely; a frame cut short is never delivered. |
| `SseWire.CutStreamPrefix` | internal/eventbus/sse_client.go:89-129 | So what was received at any time is a prefix of what will be received. |
| `SseWire.FrameReadBackIff` | internal/server/sse.go:245-249 | A frame reads back as written if and only if its name is trimmed and has no line feed and its data is a non-empty decodable payload on one line (no line feed, no final carriage return). |
| `FilterSql.CompileFilter` | internal/store/postgres/queries.go:90-227 | For every filter, bead and database: the WHERE clauses read against the argument list accept exactly the beads the filter describes; every placeholder is bound; LIMIT and OFFSET placeholders name the right arguments. |
| `FilterSql.AcceptsMeans` | internal/store/postgres/queries.go:90-227 | What a filter describes, criterion by criterion, on the columns of the row and the rows of labels and deps; with noOpenDeps no dependency leads to an existing bead with status open, in_progress or deferred. |
| `FilterSql.AcceptedInOrder` | internal/store/postgres/queries.go:229-247 | The selected rows keep the order and the repetitions of the ranking. |
| `FilterSql.PageOf` | internal/store/postgres/queries.go:220-247 | A page is a stretch of them: from the offset on, as many as the limit allows, all of them without one. |
| `FilterSql.Builder.BindAll` | internal/store/postgres/queries.go:103-107 | One placeholder per value, numbered on from the arguments present; counter and argument count stay equal. |
| `FilterSql.Builder.AddIn` | internal/store/postgres/queries.go:102-118 | The condition is narrowed by membership in the list if the list is not empty; counter equals argument count. |
| `FilterSql.Builder.AddNotIn` | internal/store/postgres/queries.go:120-127 | The condition is narrowed by non-membership in the excluded types. |
| `FilterSql.Builder.AddPriority` | internal/store/postgres/queries.go:138-151 | The condition is narrowed by the priority comparison when the bound is given. |
| `FilterSql.Builder.AddLabels` | internal/store/postgres/queries.go:158-165 | The condition is narrowed by carrying every listed label. |
| `FilterSql.Builder.AddLabelsAny` | internal/store/postgres/queries.go:167-172 | The condition is narrowed by carrying one of the listed labels. |
| `FilterSql.Builder.AddParent` | internal/store/postgres/queries.go:185-190 | The condition is narrowed by a parent-child dependency on the parent. |
| `FilterSql.Builder.AddSearch` | internal/store/postgres/queries.go:192-197 | One argument used at two places: title or description contains the text. |
| `FilterSql.Builder.AddFields` | internal/store/postgres/queries.go:199-204 | The condition is narrowed by every key of the map having its value, in whatever order the map is walked. |
| `FilterSql.Builder.AddNoOpenDeps` | internal/store/postgres/queries.go:206-210 | The condition is narrowed by the open-dependency test (see FilterSql.AcceptsMeans; blocked is not in its list). |
| `FilterSql.MoreArgs` | internal/store/postgres/queries.go:220-227 | Arguments appended for LIMIT and OFFSET do not change what the clauses select. |
| `FilterSql.ListBeads` | internal/store/postgres/queries.go:229-247 | Returns the page of the accepted beads in ranking order; the total is right if and only if there are no accepted beads or the page starts before the last one, else it is 0. With noOpenDeps no listed bead has a dependency on a bead that is open, in progress or deferred, and with nothing else set every other bead is listed. |
| `Validation.ValidateBead` | internal/model/validate.go:36-105 | Reports exactly the columns that break a rule, and none if and only if the bead is valid. |
| `Validation.ValidMeans` | internal/model/validate.go:36-105 | What valid means: title of 1 to 500 characters after trimming, priority 0 to 4, the five statuses, three kinds, a type, closed_at exactly when closed, fields that are JSON. |
| `Lifecycle.CreatableMeans` | internal/server/beads.go:40-121 | When a create goes through, condition by condition. |
| `Lifecycle.UpdatableMeans` | internal/server/beads.go:242-378 | When an update goes through, condition by condition; closed_at can never be what is wrong. |
| `Store.DeleteKeepsLinks` | internal/store/postgres/queries.go:359-372 | Deleting a bead cascades: foreign keys still hold and nothing refers to it. |
| `ServerRuns.UpdateStampsClosing` | internal/server/beads.go:324-333 | closed_at after an update of a sound store: the earlier time if the bead stays closed, the current time if it is newly closed, none if it is not closed. |
| `BeadServer.Server.CreateBead` | internal/server/beads.go:40-121 | Succeeds exactly when title, type, validator, field check and primary key allow; then the one new row has each column as requested and its labels are added; otherwise nothing changes. |
| `BeadServer.Server.UpdateBead` | internal/server/beads.go:242-378 | Succeeds exactly when the patched bead is valid; then each column is the given value if one was given and the stored one otherwise, a field key is there exactly if stored or given, with the given value if given, a patch that is no object changes no key, labels are as given, closed_at follows the status, no other row or table changes, and every column that differs is named in the published changes. |
| `BeadServer.ApplyPatch` | internal/server/beads.go:251-335 | The step-by-step overwrites produce the patched bead, and the changes map covers every difference. |
| `BeadServer.Server.ReconcileLabels` | internal/server/beads.go:382-415 | Afterwards the bead has exactly the given labels and all other rows are as before. |
| `BeadServer.Server.MergeBeadFields` | internal/server/http.go:65-90 | A key is there afterwards exactly if it was stored or given, with the given value if given and the stored one otherwise; apart from fields and updated_at no column changes, and no other row or table; fails only for a missing bead. |
| `BeadServer.Server.CloseBead` | internal/store/postgres/queries.go:324-331 | Fails only for a missing bead; else status, closed_at, closed_by and updated_at of that one row are set and every other column, row and table is unchanged. |
| `BeadServer.Server.DeleteBead` | internal/store/postgres/queries.go:359-372 | Fails only for a missing bead; else exactly the rows that name it go, in all four tables, the others keep their values, and foreign keys still hold. |
| `BeadServer.Server.AddDependency` | internal/server/http_relations.go:62-91 | Succeeds exactly when both ends are named and exist and the row is new; then that row is the only difference, and foreign keys still hold. |
| `ServerRuns.CloseKeepsValid` | internal/store/postgres/queries.go:324-331 | Closing keeps the validator satisfied although it never calls it. |
| `ServerRuns.FieldsKeepValid` | internal/server/http.go:65-90 | So does merging fields. |
| `ServerRuns.StepKeepsSound` | internal/server/beads.go:40-415 | Every operation keeps rows under their keys, foreign keys intact and every stored bead valid. |
| `ServerRuns.EveryRunIsSound` | internal/server/beads.go:40-415 | Over every run of create, update, close, merge, delete, link, label and gate operations every stored bead satisfies the validator, spelled out for title, priority and status; closed_at is set exactly when the status is closed. |
| `BeadServer.Server.HandleStop` | internal/server/http_hooks.go:61-106 | A Stop gets through exactly when its gate is satisfied and gate_satisfied_by is yield, operator or manual-force; then the gate is pending and the field cleared, as far as those two calls succeed, with all other fields kept; otherwise it blocks. |
| `BeadServer.Server.SatisfyGate` | internal/server/http_gates.go:30-47 | Afterwards the gate of an existing agent bead is satisfied; a missing agent fails and changes nothing. |
| `BeadServer.Server.ClearGate` | internal/server/http_gates.go:51-63 | Afterwards the gate is not satisfied. |
| `ServerRuns.StepGate` | internal/store/postgres/gates.go:13-61 | Only a satisfy step opens a gate, and a passing Stop closes it unless its ClearGate failed. |
| `ServerRuns.PassesNeedSatisfies` | internal/server/http_hooks.go:61-106 | Over every run the passing Stops of an agent, plus one while its gate stands open, number at most its satisfy steps plus the passes whose ClearGate failed. |
| `ServerRuns.StepProper` | internal/server/http_hooks.go:81-95 | Only a write of an accepted gate_satisfied_by value makes a bead count as properly satisfied. |
| `ServerRuns.BetweenTwoPasses` | internal/server/http_hooks.go:98-105 | Between two passing Stops of an agent there is a new satisfy step and a new accepted write of gate_satisfied_by, except where the first Stop failed to clear the one or the other. |
| `Ready.IsBlocked` | internal/server/http_graph.go:572-585 | The scan over dependencies finds a blocker exactly when some blocks dependency leads to an existing bead that is not closed. |
| `Ready.GetReady` | internal/server/http_graph.go:564-589 | Lists exactly the considered beads without such a blocker. |
| `Ready.GetBlockedBy` | internal/store/postgres/batch_queries.go:152-179 | Maps exactly the given beads that have live blockers to exactly those blockers. |
| `Ready.TwoReadingsAgree` | internal/store/postgres/batch_queries.go:152-179 | In every reachable store a bead is listed as ready exactly when the batch query has no blocker for it, although one tests "not closed" and the other a list of four statuses. |
| `Presence.Tracker.RecordHookEvent` | internal/presence/tracker.go:99-134 | The entry of the actor is created with count 1 or revived with its count one higher; time, event and non-empty details are the given ones, first seen and the rest are kept; all other entries are unchanged. |
| `Presence.Tracker.Sweep` | internal/presence/tracker.go:233-273 | Evicts and marks exactly the actors due, and reports exactly the newly dead with their sessions. |
| `Presence.Tracker.Roster` | internal/presence/tracker.go:139-180 | One line for each actor that is not stale, the most recently active first. |
| `Presence.EvictedOnlyAfterSilence` | internal/presence/tracker.go:244-255 | Over every run an evicted actor had sent no event for longer than the dead threshold plus its eviction threshold: 300 seconds if fewer than 10 of its events came since its entry was created, else the configured time. |
| `Presence.EntryCounts` | internal/presence/tracker.go:99-134 | Over every run the event count of an entry is the number of hook events of that actor since the entry was created. |
| `Presence.EvictedExact` | internal/presence/tracker.go:244-255 | For an actor marked dead and silent since, event i forgets it exactly if it is a sweep and that threshold has passed since the mark. |
| `Presence.OneNoticePerSilence` | internal/presence/tracker.go:256-272 | OnDead fires at most once for an actor between two of its events. |
| `Presence.NoticeExact` | internal/presence/tracker.go:256-272 | OnDead fires exactly at the first sweep later than the dead threshold after the last event. |
| `Presence.DeadMarkedInTime` | internal/presence/tracker.go:217-262 | With sweeps at most I apart, no actor counted alive has been idle longer than the dead threshold plus I. |
| `Advice.StripGroupPrefix` | internal/model/advice.go:83-95 | Removes `g`, one or more digits and a colon if the label starts with them, else returns the label as it is. |
| `Advice.GroupForms` | internal/model/advice.go:64-72 | Which labels have which group: after the `g` white space and a sign may precede the digits and other text may follow them up to the first colon; numbers that do not fit 64 bits are no group. |
| `Advice.NoGroup` | internal/model/advice.go:64-72 | A label without a leading `g` or without a colon has none. |
| `Advice.ParseGroups` | internal/model/advice.go:59-79 | Files each label under its scanned group number, or under the next number from 1000 on. |
| `Advice.MatchesSubscriptions` | internal/model/advice.go:17-54 | Decides: every rig and agent scope is subscribed, and some parsed group is fully subscribed. |
| `Advice.ServerMeans` | internal/model/advice.go:17-54 | The same spelled out on the labels: stripped labels that start with rig: or agent: are subscribed, and all that is filed under some group is. |
| `Advice.ParseMeans` | internal/model/advice.go:59-79 | For any labels: group k holds exactly the labels inside those numbered k and, if k is 1000+i, the i-th label without a group; no group is empty. |
| `Advice.GroupsMeanWanted` | internal/model/advice.go:36-53 | For any labels a match of the groups is a match of the logical form (a lone label subscribed, or a whole group); the two agree under every set of subscriptions if and only if each alternative contains a whole group as filed. |
| `Advice.MatchesLogically` | internal/model/advice.go:17-54 | Both matchers imply their logical form over the set of labels, for any labels, and equal it when no group has a number that is given to a label without a group. |
| `Advice.OrderDoesNotMatter` | internal/model/advice.go:56-79 | Without such a collision the result is unchanged by permuting the labels. |
| `Advice.LargeGroupNumbersCollide` | internal/model/advice.go:61-76 | A collision that breaks the logical form: a label without a group that shares its number 1000+i with a label of other text, and occurs nowhere else, does not match when only it is subscribed. |
| `Advice.ThousandTakesFirst` | internal/model/advice.go:61-76 | The smallest such input: labels x and g1000:y. |
| `Advice.OrderCanMatter` | internal/model/advice.go:61-76 | After such a collision two labels without a group that change places can change the answer. |
| `Advice.ThousandDependsOnOrder` | internal/model/advice.go:17-54 | For both matchers: x, z, g1000:y against z, x, g1000:y with x subscribed. |
| `Advice.Monotone` | internal/model/advice.go:17-54 | For any labels at all, more subscriptions never lose a match, with either matcher. |
| `Advice.ClientMatchesSubscriptions` | cmd/kd/advice_diff.go:117-155 | Decides the same with project and rig scopes of one name standing for each other. |
| `Advice.ClientMeans` | cmd/kd/advice_diff.go:117-155 | The same spelled out: a project or rig scope is subscribed under either name, an agent scope under its own, and all that is filed under some group is. |
| `Advice.ClientImpliesServer` | cmd/kd/advice_diff.go:117-155 | On subscriptions that hold rig:X beside every project:X a client match implies a server match; without project-scoped labels the two are equivalent. |
| `Advice.ClosureIsNeeded` | cmd/kd/advice_diff.go:127-132 | For any subscriptions: whatever the client shows the server delivers, for all labels, if and only if rig:X is held beside every project:X. |
| `Advice.ClaimMayOutrunServer` | cmd/kd/advice_diff.go:24-41 | The subscriptions of the claim diff have that property exactly when every claimed project label comes with its rig label. |
| `Advice.BuildAgentSubscriptions` | cmd/kd/advice_diff.go:82-100 | The base subscriptions are exactly the listed ones, and they are closed in that sense. |
| `Advice.AdviceDiff` | cmd/kd/advice_diff.go:24-52 | The loop returns, in order, exactly the advice that matches the enriched but not the base subscriptions. |
| `Advice.TargetingAre` | cmd/kd/advice_diff.go:24-41 | What enriches them: exactly the claimed labels that, stripped, are global or start with project:, rig:, role: or agent:. |
| `Advice.DiffIsGain` | cmd/kd/advice_diff.go:42-52 | The advice matched after a claim is the advice matched before it together with the diff: nothing is lost, nothing printed twice. |
| `Subjects.PublishSubject` | internal/eventbus/bus.go:116-135 | The chosen subject, spelled out for every event type: hooks.<actor>.<type> for hook events with _global for an empty actor, decisions.<requester>.<type> likewise for decision events with a parsed requester, else the category and the type. |
| `Subjects.PublishHookEvent` | internal/eventbus/streams.go:150-156 | The pattern hooks.<agent>.> of an agent matches what is published for an actor, both without dots, exactly if actor and agent are the same. |
| `Subjects.SubjectForEventRouted` | internal/eventbus/streams.go:115-138 | The prefix chosen by the chain of tests is that of the category. |
| `Subjects.StreamForSubject` | internal/eventbus/streams.go:62-72 | Returns the stream whose prefix the subject has, or the empty string when there is none. |
| `Subjects.EventTypeFromSubject` | internal/eventbus/streams.go:75-82 | Returns what follows the last dot. |
| `Subjects.PublishedUnderOneStream` | internal/eventbus/streams.go:159-173 | Every published subject falls under exactly one of the nine stream wildcards, that of its category. |
| `Subjects.StreamDecodes` | internal/eventbus/streams.go:62-72 | The stream read back from a published subject is the category that chose it. |
| `Subjects.TypeDecodes` | internal/eventbus/streams.go:75-82 | The type read back is the published one if and only if it has no dot. |
| `Subjects.DecodePublished` | internal/eventbus/bus.go:116-135 | Publishing and decoding together: stream, type and wildcard, for every input. |
| `Templates.ReadingIsUnique` | cmd/kd/formula_apply.go:418-430 | A string has exactly one reading as characters and placeholders in which no placeholder is left spelled out. |
| `Templates.TokensRead` | cmd/kd/formula_apply.go:418-430 | The tokenisation is such a reading. |
| `Templates.SubstituteIsRender` | cmd/kd/formula_apply.go:422-430 | Leftmost, non-overlapping replacement equals rendering that reading token by token: values go in as they are and are not rescanned. |
| `Templates.UnboundUntouched` | cmd/kd/formula_apply.go:421-428 | A template none of whose variables is bound comes back unchanged. |
| `Templates.NameFilled` | cmd/kd/formula_apply.go:418-430 | `{{name}}`, for a name of letters, digits and underscores, is replaced by its value if it is bound and stays otherwise; text in front without braces is copied and the rest is treated on its own. |
| `Templates.OtherKept` | cmd/kd/formula_apply.go:418-430 | Anything else in double braces stays as it is. |
| `Templates.OnlyNamesMatter` | cmd/kd/formula_apply.go:422-430 | The result depends only on the variables the template names. |
| `Templates.ValuesAreNotRescanned` | cmd/kd/formula_apply.go:422-430 | A value that spells a placeholder stays as it is even if that variable is bound. |
| `Templates.NegationNegates` | cmd/kd/formula_apply.go:441-445 | `!c` holds exactly when `c` does not, for every condition. |
| `Templates.Comparison` | cmd/kd/formula_apply.go:447-457 | For a left side that holds no operator and does not run into one, and for every right side: `a != b` compares the substituted left with the right as written; `a == b` tests equality, unless b holds a `!=`, when it is the inequality of what stands before and after the first `!=`. |
| `Templates.ComplementsIff` | cmd/kd/formula_apply.go:448-457 | For a left side with a variable in it: of `a == b` and `a != b` exactly one holds, whatever the variables, if and only if b holds no `!=`. |
| `Templates.ComparesVariable` | cmd/kd/formula_apply.go:432-437 | For one variable: `!=` always compares its value, or its own placeholder when unbound, with the trimmed text; `==` does so for all variables if and only if the text holds no `!=`. |
| `Templates.EqualityShadowed` | cmd/kd/formula_apply.go:448-457 | With a `!=` anywhere on the right the `==` form is an inequality whose left side is all that precedes that operator, `x!!=y` included. |
| `Templates.OperatorInValue` | cmd/kd/formula_apply.go:448-457 | Then both forms hold at once whenever the variable named first is bound to a text longer than the right side. |
| `Templates.BareVariable` | cmd/kd/formula_apply.go:459-468 | `{{v}}` holds exactly when v is bound to something other than the empty string, "false", "0" and its own placeholder. |
| `Templates.LiteralHolds` | cmd/kd/formula_apply.go:465-470 | Text without braces and operator signs holds if and only if it is not all white space, even "false" and "0". |
| `Formula.ValidateSteps` | cmd/kd/formula_create.go:95-119 | Accepts exactly the well-formed step lists. |
| `Formula.WellFormedMeans` | cmd/kd/formula_create.go:95-119 | Well-formed: at least one step, ids and titles not empty, ids distinct, every dependency the id of a step. |
| `Formula.ResolveVars` | cmd/kd/formula_apply.go:68-92 | Succeeds exactly when every definition is met by the variables as they are after it, and returns the given variables with defaults filled in. |
| `Formula.DefaultsFill` | cmd/kd/formula_apply.go:69-76 | Given bindings stay; a name ends up bound exactly if given or defaulted. |
| `Formula.DefaultUsed` | cmd/kd/formula_apply.go:69-76 | The value is that of the first definition with a default. |
| `Formula.AcceptedMeans` | cmd/kd/formula_apply.go:69-92 | With distinct names the variables are accepted exactly if every required one is given or has a default and every value that is used is an allowed one. |
| `Formula.AcceptedMeetsAll` | cmd/kd/formula_apply.go:69-92 | With distinct names the checks on the way are checks of the final variables. |
| `Formula.Expand` | cmd/kd/formula_apply.go:94-141 | The three loops compute the active steps; with distinct ids a step is active exactly if it has no condition or its condition holds, and an active step is the step with title, description and assignee substituted. |
| `Formula.WhatRemains` | cmd/kd/formula_apply.go:94-141 | The same of the specification: which steps remain, and as what. |
| `Formula.DependenciesRemain` | cmd/kd/formula_apply.go:132-139 | A step that remains waits for exactly those of its dependencies whose conditions hold or are absent. |
| `Formula.ActiveSteps` | cmd/kd/formula_apply.go:127-141 | The active steps are exactly the forms of the steps that are not skipped, with distinct ids. |
| `Formula.KeptDeps` | cmd/kd/formula_apply.go:132-139 | Exactly the dependencies on steps that were not skipped remain (order across a skipped step is not bridged). |
| `Formula.MergeLabels` | cmd/kd/formula_apply.go:482-501 | The two loops keep first occurrences; with nothing to add the base is returned as it is. |
| `Formula.MergeIs` | cmd/kd/formula_apply.go:482-501 | The merge holds exactly the labels of both lists, without repetition when something was merged in. |
| `Molecules.Apply` | cmd/kd/formula_apply.go:94-285 | From expansion to links: the store and the outcome are those of the specified sequence of calls, up to the first that fails. |
| `Molecules.KidRequest` | cmd/kd/formula_apply.go:220-248 | A child carries exactly the labels of formula, command line and step and one role label per role of the step, or of the formula if it has none; its assignee is that of step, command line or formula, the first that is set. |
| `MoleculeLaws.ChildLabels` | cmd/kd/formula_apply.go:231-248 | And those are exactly the label rows it has in the store after the pour. |
| `Molecules.CreateChildren` | cmd/kd/formula_apply.go:216-266 | Creates one bead and one parent-child edge per active step, recording bead ids by step id; stops at the first failure. |
| `Molecules.LinkChildren` | cmd/kd/formula_apply.go:268-285 | Adds one blocks edge per dependency on an active step; stops at the first failure. |
| `MoleculeShape.PourIs` | cmd/kd/formula_apply.go:216-285 | With fresh ids a pour succeeds exactly when every request is acceptable and no step names a dependency twice, and then the store is exactly the old one plus the image. |
| `MoleculeShape.DepsLinked` | cmd/kd/formula_apply.go:268-285 | The edges of one child go in exactly when no dependency is repeated (a repeated one violates the primary key). |
| `MoleculeLaws.PourIsExactImage` | cmd/kd/formula_apply.go:94-285 | The same for every formula that passed creation. |
| `MoleculeSteps.StepsPoured` | cmd/kd/formula_apply.go:94-285 | What that is, step by step of the formula as written: some step has no condition or one that holds; each such step, in order, has one bead with title, description, type, priority, assignee and labels as substituted or defaulted, its parent-child edge, and blocks edges exactly to the beads of its dependencies; the molecule has those of the formula; no other bead is new. |
| `MoleculeLaws.EdgesFollowSteps` | cmd/kd/formula_apply.go:268-285 | Two children are joined by a blocks edge exactly when the step of the one depends on the step of the other. |
| `MoleculeLaws.NewEdges` | cmd/kd/formula_apply.go:256-285 | The new edges are parent-child edges to the molecule and blocks edges between children, nothing else. |
| `MoleculeLaws.ChildrenAreSteps` | cmd/kd/formula_apply.go:256-262 | The children of the molecule are exactly the beads of the active steps, and it is the only parent of each. |
| `MoleculeLaws.PourKeepsAcyclic` | cmd/kd/formula_apply.go:268-285 | Acyclic step dependencies poured into a store without a cycle of blocks edges leave none. |
| `MoleculeLaws.Burn` | cmd/kd/mol_burn.go:32-74 | Deletes the children and the molecule with everything that refers to them, only for a molecule and only without dry run and with force or no children; the beads that go are the molecule and those with a parent-child edge to it. |
| `MoleculeLaws.BurnUndoesPour` | cmd/kd/mol_burn.go:40-74 | Burning right after a pour restores every table exactly. |
| `MoleculeLaws.BurnRuns` | cmd/kd/mol_burn.go:32-64 | A forced burn of what was just poured is carried out. |
| `MoleculeUndo.PourGrows` | cmd/kd/formula_apply.go:199-285 | Wherever a pour with fresh ids stops, and for any requests: if its molecule is there, the store is the old one plus the molecule, the first n children with their edges, and blocks edges between them; else it is unchanged. |
| `MoleculeUndo.BurnUndoesAnyPour` | cmd/kd/mol_burn.go:32-74 | So a forced burn undoes every pour, complete or broken off. |
| `MoleculeUndo.PourAndBurn` | cmd/kd/mol_burn.go:40-74 | Pouring and burning carried out on a server gives back the store it had, whether or not the pour succeeded. |
| `GraphEdges.GeneratedIsIdLike` | internal/idgen/idgen.go:10-31 | Generated identifiers contain none of the separators of edge keys. |
| `GraphEdges.GetDependenciesForBeads` | internal/store/postgres/batch_queries.go:13-37 | Groups exactly the rows of the given beads under their own bead. |
| `GraphEdges.GetReverseDependenciesForBeads` | internal/store/postgres/batch_queries.go:40-64 | Groups exactly the rows that depend on the given beads under their target. |
| `GraphEdges.KeyInjective` | internal/server/http_graph.go:215-215 | The de-duplication key tells edges between generated ids apart, whatever their types are called. |
| `GraphEdges.BuildEdges` | internal/server/http_graph.go:208-254 | Edges come from records, one per key, every key covered; the ids to fetch are exactly the ends not at hand. |
| `GraphEdges.UnionIsExact` | internal/server/http_graph.go:208-254 | Between generated ids the edges are exactly the records, each once. |
| `GraphParents.ParentLookup` | internal/server/http_graph.go:321-351 | Each bead gets a reverse record parent, else its last forward one, else the first epic it waits for, else none. |
| `GraphParents.FindEpic` | internal/server/http_graph.go:343-350 | The loop finds the first blocks dependency on a known epic. |
| `GraphParents.FirstEpicMeans` | internal/server/http_graph.go:343-350 | By position: a blocks record whose target is a known bead of type epic, and none such before it. |
| `GraphParents.LastParentMeans` | internal/server/http_graph.go:321-327 | The forward parent is that of the last parent-child record. |
| `GraphParents.Promote` | internal/server/http_graph.go:353-360 | In place: exactly the blocks edges that repeat a parent become parent-child edges. |
| `GraphParents.ParentHasRecord` | internal/server/http_graph.go:321-351 | Every parent comes from a parent-child record or a blocks record of that bead. |
| `GraphParents.ParentHasEdge` | internal/server/http_graph.go:208-254 | After promotion a bead has the parent-child edge to its parent if and only if some record that edges are built from joins the two as parent-child or blocks. |
| `GraphParents.BackedIff` | internal/server/http_graph.go:321-360 | In terms of the queries: if and only if the reverse query succeeded or the forward records of the bead name that parent. |
| `Graph.CutToLimit` | internal/server/http_graph.go:121-138 | Keeps as many beads as the limit allows, and drops none that ranks before one it keeps: in progress, blocked, open, deferred, closed in the last seven days, other closed; priority within a rank. |
| `Graph.Fetch` | internal/server/http_graph.go:256-319 | Adds exactly the fetched beads that pass the type and closed-and-recent tests; nothing when the query fails. |
| `Graph.BuildNodes` | internal/server/http_graph.go:362-390 | One node per bead, with its title, status, priority, type, assignee and parent. |
| `Graph.AddAssignees` | internal/server/http_graph.go:415-427 | Roster agents stay; each other assignee at work gets a node without status. |
| `Graph.AddAssignments` | internal/server/http_graph.go:429-441 | Appends exactly the assigned_to edges of the beads in progress. |
| `Graph.ShownAgents` | internal/server/http_graph.go:443-454 | Adds exactly the agent nodes that have an assignment or request edge. |
| `GraphPrune.ClosedConnected` | internal/server/http_graph.go:464-488 | The neighbour lists mark exactly the closed nodes that an edge joins to a live node. |
| `GraphPrune.Prune` | internal/server/http_graph.go:457-520 | Keeps, in order, exactly the nodes that meet the rules and the edges whose two ends are kept. |
| `GraphPrune.PruneIsExact` | internal/server/http_graph.go:490-520 | A node stays if and only if it meets its rule; an edge stays if and only if both ends stay. |
| `GraphPrune.ClosedHasLiveNeighbor` | internal/server/http_graph.go:477-520 | Every closed node that stays keeps an edge to a live node that stays. |
| `GraphLaws.HandleGraph` | internal/server/http_graph.go:208-525 | From query results to response: no edge leads out of it, closed nodes are next to live ones, agent nodes are at work, a node whose parent is shown has its edge exactly when the records at hand back that parent, and the columns of a bead node are those of the bead; the response comes out of the stages the laws below speak of. |
| `GraphLaws.ResponseIsExact` | internal/server/http_graph.go:457-525 | Every response edge has both ends in the response, and pruning removes exactly what it must. |
| `GraphLaws.ClosedNodesAreNearLive` | internal/server/http_graph.go:477-520 | Every closed node of the response has a response edge to an open, in-progress, blocked, deferred, active or idle node of the response. |
| `GraphLaws.ParentsAgreeWithEdges` | internal/server/http_graph.go:321-371 | A node whose ParentID is in the response has a parent-child edge to it in the response if and only if the reverse query succeeded or the forward records of the node name that parent. |
| `GraphLaws.PartialReverseLosesEdge` | internal/server/http_graph.go:233-254 | The failing family: b and p found, b blocks on c, c a child of p, the reverse query broken off. Every response to it shows c under p and no edge between them. |
| `GraphLaws.ServeBrokenOff` | internal/server/http_graph.go:233-254 | One such request, carried out. |
| `GraphLaws.AgentsAreAtWork` | internal/server/http_graph.go:392-455 | Every agent node of the response has an assigned_to edge in the response to a bead in progress in the response. |
| `GraphLaws.EdgesAreRecords` | internal/server/http_graph.go:208-254 | The response edges are exactly the dependencies between its nodes, promoted or not, and the assignments. |
| `GraphLaws.DependenciesAtHand` | internal/server/http_graph.go:256-275 | With dependencies included, both ends of every dependency are at hand unless of an excluded type or gone. |
| `GraphService.ServeGraph` | internal/server/http_graph.go:140-525 | From the tables to the response, exactly and in terms of the rows alone. Nodes: the selected beads and those that a reached row leads to and the options allow, less unconnected gates, decisions and agents and closed beads that no reached row joins to a live one; each with title, status, priority, type and assignee of its row; and the agents assigned a bead at hand that is in progress, with the status of their last roster entry. Edges: exactly the reached rows between nodes, as parent-child where a blocks row repeats the parent, and the assignments. Parents: a reverse row, else an own row, else an epic waited for. A closed bead that is shown has an edge to a live node; a shown parent has its edge exactly when the reverse query succeeded or the node was selected. |
| `GraphExact.NodesAreExact` | internal/server/http_graph.go:256-525 | The node part of that: which beads and agents are shown, and with which columns. |
| `GraphExact.EdgesAreExact` | internal/server/http_graph.go:208-254 | The edge part. |
| `GraphExact.ParentsAreExact` | internal/server/http_graph.go:321-351 | The parent part. |
| `GraphService.EveryRunIsServable` | internal/server/beads.go:40-121 | Every store that a run reaches with generated identifiers meets the conditions of that request. |

## Left out

- JSON text: fields are a map from keys to values; decodability of SSE payloads is an abstract predicate.
- Postgres, NATS/JetStream, git and shell calls: statements are functions of the tables, and their failures are parameters only where the code tolerates them (Stop hook, graph queries); elsewhere a failing call ends the operation.
- Three-valued SQL logic, ILIKE metacharacters and sort tie-breaking: columns are non-null, text search is an abstract predicate, the ORDER BY ranking is an input, the parsing of the sort parameter is not part of this model, and the graph's relevance sort is any sorted listing.
- The scanner's 1 MB line limit and the width of ids and counters: integers are unbounded, except scanned group numbers, which must fit an int.
- HubProtocol.StepKeepsInv: a ring write is one step and so is each look at a slot (the topic test and the reads of id, topic and data); Go gives no such guarantee for the unlocked looks, and values torn within one field are not modelled.
- BeadServer.Server.MergeBeadFields: stored fields are absent, a JSON object or text that is not JSON; a stored JSON `null`, on which the source assigns into a nil map (`internal/server/http.go:72-79`, `internal/server/beads.go:302-311`), is not modelled.
- HubProtocol.RunKeepsInv: its runs interleave those steps, so slots written in part are outside them.
- HubRuns.FrameOrigins: the order of the three origins rests on the same atomic ring writes.
- GraphService.ServeGraph: all queries of a request read one store state; the handler runs them one after another without a transaction (`internal/server/http_graph.go:140-275`), and what changes in between is not modelled.
- Presence.EvictedOnlyAfterSilence: times do not decrease in the order in which events and sweeps take the lock (`Presence.Timely`, also used by Presence.DeadMarkedInTime); the source reads the clock before locking (`internal/presence/tracker.go:104-105`), so two events close in time may be recorded the other way round.
- Timers, keepalive scheduling and contexts: each clock reading is a parameter, and the presence sweep runs when a run says so.
- Overlapping server handlers: bead and gate operations are atomic steps; only the SSE hub is modelled under interleaving.
- HubRuns.NoGapOnReconnect: speaks of connections that are still subscribed and have finished their replay; after leaving the hub owes them nothing.
- GraphParents.LastParentMeans: speaks of the order in which the query returns rows; the statement has no ORDER BY, so which of several own parents a node shows is open.
- Molecules.Apply: builds all child requests before the first call where the source builds each just before its call (building one depends on no call); splitting `--var` pairs, dry-run printing and reading the formula bead are not part of this model.
- Graph.BuildNodes: dependency counts, labels, blocked-by lists, bodies and time stamps of nodes are copied from queries and not modelled.
- Graph.CutToLimit: the queries per status and type that collect the beads beforehand are not part of this model.
- Presence.Tracker.Roster: sorting is modelled as insertion, where the source calls the library's sort.
- Advice: printing, scope headers and the server's own subscription builder are not modelled.
- HTTP and gRPC plumbing, protobuf conversion, auth, configuration, comments, decisions, jacks, remote profiles, export and sync: copying and I/O without a property of their own.
- Graph pruning is not idempotent, promotion can create duplicate triples, and a skipped step does not hand its order on; none of these is claimed.
