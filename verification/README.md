# Parley core, modelled in Dafny

Parley is a meeting assistant. A user creates an *agent* (a name plus instructions for an
AI participant) and schedules *meetings* with it. When the video call starts, the agent
joins the call. When the call ends, the transcript and recording are stored and a
background job summarises them. After that, the user can chat with the agent about the
completed meeting.

This project models the server-side core of that flow:

- **The webhook endpoint** (`POST /api/webhook`).
  - It receives signed events from the call/chat provider.
  - It moves each meeting through its lifecycle (upcoming → active → processing).
  - It records the transcript and recording URLs and queues the processing job.
  - It ends calls that nobody remains in.
  - It answers chat messages about completed meetings with a language-model reply, posted as the meeting's agent.
- **The meetings procedures**: the transcript with resolved speakers, owner-scoped
  `remove`/`update`, and the `getOne`/`getMany` queries joined with each meeting's agent.
- **The agents procedures**: owner-scoped `update`/`remove` (with the cascade to the agent's
  meetings), and `getOne`/`getMany`, which report each agent's meeting count.
- **The input schemas** of both routers.
- **The `meetings` table definition.**
- **The pager component** under the list views.

## How the model is built

- **Database.** The tables are sequences of rows in storage order. They are held by one
  object, `Database.Db`, which the mutating procedures update in place.
  - A SQL `where` is a filter (`Sql.Where`).
  - `const [row] = …` takes the first match (`Sql.FirstIndex`).
  - `update … set … where` is a pointwise rewrite.
  - `ORDER BY created_at DESC, id DESC` is an insertion sort.
  - `LIMIT`/`OFFSET` is a slice.
  - `Db.Valid` holds the primary keys and `Db.Intact` the foreign keys of `meetings`.
  - Every mutating procedure preserves both.
- **Calls to outside services** are entries appended to ghost outboxes in `Webhook.Effects`:
  - realtime sessions;
  - ended calls;
  - processing jobs;
  - model requests;
  - chat users;
  - chat posts.
- **Webhook outcomes.** Each webhook event has a two-state predicate stating its complete
  outcome: response, tables and outboxes. The event's method and `Webhook.Post` both promise
  that predicate.
- **Inputs that come from outside.** These are parameters of the procedures:
  - the signature check's verdict;
  - the call roster;
  - the chat channel's messages;
  - the model's reply;
  - the fetched transcript;
  - the clock;
  - the signed-in caller.
- **JavaScript truthiness** of an optional string is `Wrappers.Truthy`: present and non-empty.
- **`String.prototype.trim`** uses the ECMAScript white-space and line-terminator set (`Text.IsWhitespace`).
- **Timestamps** are integers.
- **Avatars** are values `Generated(seed, variant)` or `StoredImage(url)`, not rendered images.

## Two behaviours worth knowing

One might expect otherwise in both cases; the model follows the code.

- **Chat history window.** One might expect blank messages to be dropped before the
  five-message cut. The code (`route.ts:181-183`) takes the last five messages first and
  drops blank ones after that, so the history can be shorter than five while older messages
  with text exist. `Webhook.HistoryCoversRecentText` and `Webhook.OnlyLastFiveCount` state
  the behaviour as written.
- **`call.session_ended`.** It answers `{status:"ok"}` even when the meeting is missing or
  not active. Nothing changes in that case (`Webhook.EndWithoutActiveChangesNothing`).

## Model

| member | source | states |
|---|---|---|
| Webhook.Post | apps/web/src/app/api/webhook/route.ts:21-262 | Missing signature or API-key header: 400 "Missing headers". A signature that fails: 401 "Invalid signature". Neither touches the tables or outboxes. Otherwise the outcome of the event named by `type`, or `ignored` with nothing changed for an unknown type. Primary and foreign keys are kept. |
| Webhook.SessionStarted | apps/web/src/app/api/webhook/route.ts:36-77 | No meeting id: 400. No upcoming meeting with that id: 404 with nothing changed. Otherwise the meeting becomes active with `startedAt = now`, committed before the agent lookup. A missing agent then gives 404 with the meeting left active. A found agent joins the call with its instructions. |
| Webhook.ParticipantLeft | apps/web/src/app/api/webhook/route.ts:79-97 | A missing or empty meeting id from `call_cid` gives 400. Otherwise the call is ended exactly when the roster is unavailable or nobody remains, and no table row changes. |
| Webhook.SessionEnded | apps/web/src/app/api/webhook/route.ts:100-111 | No meeting id: 400. Otherwise only active rows with that id become processing with `endedAt = now`, and the answer is ok either way. |
| Webhook.TranscriptionReady | apps/web/src/app/api/webhook/route.ts:113-136 | Only `transcriptUrl` is set, whatever the status, and exactly one processing job with the meeting id and that URL is queued. An unknown meeting gives 404 with no job and no change. |
| Webhook.RecordingReady | apps/web/src/app/api/webhook/route.ts:138-155 | Only `recordingUrl` is set, whatever the status. An unknown meeting gives 404 with no change. |
| Webhook.MessageNew | apps/web/src/app/api/webhook/route.ts:157-251 | No reply on a missing user, channel or text (400), a meeting that is absent or not completed (404), a missing agent (404), the agent's own message, or a null summary (400). One model request with no reply when the model returns nothing (400). Otherwise one request, then the agent's identity is upserted and the reply posted. Tables never change. |
| Webhook.RedeliveredStart | apps/web/src/app/api/webhook/route.ts:36-77 | A second delivery of the same start event is answered 404. The two deliveries together have exactly the first one's outcome (tables, outboxes and answer, including "Agent not found" with the meeting left active). The meeting is started iff it was upcoming. |
| Webhook.SecondField | apps/web/src/app/api/webhook/route.ts:81 | `split(":")[1]` exists iff the text has a colon. It is the text right after the first colon, up to the next colon or the end, and holds no colon. |
| Webhook.CallCidMeetingId | apps/web/src/app/api/webhook/route.ts:81 | `call_cid?.split(":")[1]` is present iff the `call_cid` is present and has a colon, and the id it gives has no colon. |
| Webhook.CallCidRoundTrip | apps/web/src/app/api/webhook/route.ts:115 | For a `call_cid` built as `<type>:<id>` with colon-free parts, the handler recovers exactly the id. |
| Webhook.MayStart | apps/web/src/app/api/webhook/route.ts:49-52 | Excluding completed, active, cancelled and processing admits exactly upcoming. |
| Webhook.FindStartable | apps/web/src/app/api/webhook/route.ts:43-54 | Finds a row with that id that is upcoming, or reports that none exists. |
| Webhook.FindMeeting | apps/web/src/app/api/webhook/route.ts:119-126 | Finds a row with that id, or reports that none exists. |
| Webhook.FindCompleted | apps/web/src/app/api/webhook/route.ts:166-171 | Finds a completed row with that id, or reports that none exists. |
| Webhook.MarkStarted | apps/web/src/app/api/webhook/route.ts:59-62 | Rows with the id become active with `startedAt`; every other row is unchanged. |
| Webhook.MarkEnded | apps/web/src/app/api/webhook/route.ts:106-109 | Rows with the id that are active become processing with `endedAt`; every other row is unchanged. |
| Webhook.SetTranscriptUrl | apps/web/src/app/api/webhook/route.ts:119-123 | Only `transcriptUrl` of rows with the id changes. |
| Webhook.SetRecordingUrl | apps/web/src/app/api/webhook/route.ts:145-149 | Only `recordingUrl` of rows with the id changes. |
| Webhook.RestartFindsNothing | apps/web/src/app/api/webhook/route.ts:43-62 | After a start, no row with that id can start again, so a redelivered start is a 404 no-op. |
| Webhook.EndWithoutActiveChangesNothing | apps/web/src/app/api/webhook/route.ts:106-109 | An end event against a meeting that is not active leaves every row unchanged. |
| Webhook.EndTwiceIsEndOnce | apps/web/src/app/api/webhook/route.ts:106-109 | Ending twice is the same as ending once. |
| Webhook.StartAdvances | apps/web/src/app/api/webhook/route.ts:59-62 | With unique ids, a start after the guard moves only the found row, and only forward in the lifecycle. |
| Webhook.EndAdvances | apps/web/src/app/api/webhook/route.ts:106-109 | An end only moves rows forward in the lifecycle. |
| Webhook.ShouldEndCallIff | apps/web/src/app/api/webhook/route.ts:88-94 | States `ShouldEndCall` for a roster that was read: the call ends iff every member's role is `removed` or `left`. |
| Webhook.LastMessages | apps/web/src/app/api/webhook/route.ts:182 | `slice(-n)` is the last `min(n, length)` messages. |
| Webhook.HasTextIff | apps/web/src/app/api/webhook/route.ts:183 | A message is kept iff its text is present and not all whitespace. |
| Webhook.Turn | apps/web/src/app/api/webhook/route.ts:184-187 | The role is assistant iff the author is the agent, else user, never system. The content is the message text. |
| Webhook.History | apps/web/src/app/api/webhook/route.ts:181-187 | At most five entries, exactly one for each of the messages with text among the last five (`HistoryPositions`). |
| Webhook.HistoryEntryFromRecentText | apps/web/src/app/api/webhook/route.ts:181-187 | Each entry comes from a message with text among the last five, tagged by its author. |
| Webhook.HistoryKeepsOrder | apps/web/src/app/api/webhook/route.ts:181-187 | Entries keep channel order. |
| Webhook.HistoryCoversRecentText | apps/web/src/app/api/webhook/route.ts:181-183 | Every message with text among the last five has its entry. |
| Webhook.OnlyLastFiveCount | apps/web/src/app/api/webhook/route.ts:182-183 | Messages older than the last five never reach the model, whatever the newer five hold. |
| Webhook.ModelRequestShape | apps/web/src/app/api/webhook/route.ts:216-221 | States `ModelRequest` built from `History`: the model sees the system prompt first and only once, then the history in order, then the new text last: between 2 and 7 entries. |
| Webhook.AgentIdentity | apps/web/src/app/api/webhook/route.ts:234-247 | The agent speaks in chat under its own id and name, with the bot avatar seeded by its name. |
| MeetingsRouter.FindOwned | packages/api/src/routers/meetings/api/meeting-router.ts:62-65 | Finds the caller's meeting with that id, or reports that none exists. |
| MeetingsRouter.UserSpeaker | packages/api/src/routers/meetings/api/meeting-router.ts:36-40 | A user's stored image if non-null, else the initials avatar of the name. |
| MeetingsRouter.AgentSpeaker | packages/api/src/routers/meetings/api/meeting-router.ts:41-45 | An agent speaks under its id and name, always with the bot avatar seeded by its name. |
| MeetingsRouter.UserSpeakers | packages/api/src/routers/meetings/api/meeting-router.ts:30-40 | Every entry is the speaker of a user whose id was looked up, and every such user has its speaker there. |
| MeetingsRouter.AgentSpeakers | packages/api/src/routers/meetings/api/meeting-router.ts:30-45 | Every entry is the speaker of an agent whose id was looked up, and every such agent has its speaker there. |
| MeetingsRouter.SpeakersByIds | packages/api/src/routers/meetings/api/meeting-router.ts:27-47 | The user speakers come first, then the agent speakers; every user and every agent whose id is among the ids has its speaker in the list. |
| MeetingsRouter.FindSpeaker | packages/api/src/routers/meetings/api/meeting-router.ts:81 | Finds a speaker with that id, or reports that none has it. |
| MeetingsRouter.FindSpeakerAppend | packages/api/src/routers/meetings/api/meeting-router.ts:35-46 | User speakers are searched before agent speakers. |
| MeetingsRouter.UserSpeakersFind | packages/api/src/routers/meetings/api/meeting-router.ts:28-40 | For an id in the looked-up set, the user speakers yield the first user with that id. |
| MeetingsRouter.AgentSpeakersFind | packages/api/src/routers/meetings/api/meeting-router.ts:41-45 | For an id in the looked-up set, the agent speakers yield the first agent with that id, with the bot avatar. |
| MeetingsRouter.Enrich | packages/api/src/routers/meetings/api/meeting-router.ts:80-89 | Every original field of the line is kept. |
| MeetingsRouter.EnrichResolvesSpeaker | packages/api/src/routers/meetings/api/meeting-router.ts:78-89 | A line's speaker is the user with its id, else the agent, else "Unknown" with the initials avatar of "Unknown". |
| MeetingsRouter.GetTranscript | packages/api/src/routers/meetings/api/meeting-router.ts:59-90 | NOT_FOUND iff the caller owns no meeting with that id. `[]` without a transcript URL or when fetch/parse failed. Otherwise the same length and order, every line kept. |
| MeetingsRouter.TranscriptSpeakersResolved | packages/api/src/routers/meetings/api/meeting-router.ts:78-89 | Every returned line carries the speaker its id resolves to. |
| MeetingsRouter.Remove | packages/api/src/routers/meetings/api/meeting-router.ts:114-127 | Deletes only the caller's rows with that id and returns the first. NOT_FOUND with nothing deleted otherwise. Keys kept. |
| MeetingsRouter.RemoveTakesOnlyThatRow | packages/api/src/routers/meetings/api/meeting-router.ts:117-120 | With unique ids, exactly the returned row disappears and the rest keep their order. |
| MeetingsRouter.Retarget | packages/api/src/routers/meetings/api/meeting-router.ts:132-136 | Only the caller's rows with that id take the new name and agent; all else is unchanged. |
| MeetingsRouter.RetargetKeepsConstraints | packages/db/src/schema/meeting.ts:27-29 | Pointing meetings at an existing agent keeps the primary and foreign keys. |
| MeetingsRouter.DeleteKeepsReferences | packages/db/src/schema/meeting.ts:23-29 | Deleting meetings keeps the remaining meetings' references. |
| MeetingsRouter.Update | packages/api/src/routers/meetings/api/meeting-router.ts:129-143 | An invalid input is BAD_REQUEST with the schema messages. No owned row is NOT_FOUND. An unknown agent fails the foreign key (INTERNAL_SERVER_ERROR). On each failure nothing changes. Otherwise the row takes the trimmed name and the agent and is returned, and `updatedAt` is untouched. |
| MeetingsRouter.UpdateChangesOnlyThatRow | packages/api/src/routers/meetings/api/meeting-router.ts:132-136 | With unique ids, only the returned row changes. |
| MeetingsRouter.Duration | packages/api/src/routers/meetings/api/meeting-router.ts:152 | Null unless both ends are set; otherwise `startedAt + duration = endedAt`. |
| MeetingsRouter.Joined | packages/api/src/routers/meetings/api/meeting-router.ts:149-155 | The joined agent is a row of `agents` whose id is the meeting's `agentId`, and the item's `duration` is the meeting's `Duration`. |
| MeetingsRouter.GetOne | packages/api/src/routers/meetings/api/meeting-router.ts:145-161 | The caller's meeting with that id, its agent, and its `duration` (`ended_at - started_at`, null unless both are set). NOT_FOUND iff no such meeting has an agent to join. |
| MeetingsRouter.Listed | packages/api/src/routers/meetings/api/meeting-router.ts:192-199 | Exactly the rows that are owned by the caller, pass each set filter, and join with an agent. |
| MeetingsRouter.Ordered | packages/api/src/routers/meetings/api/meeting-router.ts:191-200 | Every ordered meeting joins with an agent. |
| MeetingsRouter.OrderedIsSortedListing | packages/api/src/routers/meetings/api/meeting-router.ts:200 | The order is newest first, ties by id descending. It is a permutation of the filtered rows. |
| MeetingsRouter.JoinAll | packages/api/src/routers/meetings/api/meeting-router.ts:184-191 | Each meeting keeps its place and gets its own agent and duration. |
| MeetingsRouter.PageFor | packages/api/src/routers/meetings/api/meeting-router.ts:201-221 | Fails iff page < 1. `total` is the filtered count, `totalPages = ceil(total/pageSize)`, and at most pageSize items. |
| MeetingsRouter.PageForItemAt | packages/api/src/routers/meetings/api/meeting-router.ts:200-202 | Entry k is the meeting at place `(page-1)*pageSize + k` of the ordered list. |
| MeetingsRouter.GetMany | packages/api/src/routers/meetings/api/meeting-router.ts:163-222 | A page size outside [1,100] or a status outside the five labels is BAD_REQUEST, carrying the paging issues and then the status issue. Otherwise a page below 1 is INTERNAL_SERVER_ERROR (negative offset). Succeeds iff none of these applies, and then answers exactly `PageFor`'s page for the parsed filter: the counts, and each item with its own agent and duration. |
| MeetingsRouter.ParseFilter | packages/api/src/routers/meetings/api/meeting-router.ts:168-178 | `search` and `agentId` pass as given. A given `status` passes iff it is one of the five labels, and then becomes the status with that label. Any other status is refused with zod's enum message naming the five options and the value received. |
| MeetingsRouter.QueryOf | packages/api/src/routers/meetings/api/meeting-router.ts:168-178 | Every filter is the parse of an input (its status written as its label). |
| MeetingsRouter.ParsedQueryRoundTrip | packages/api/src/routers/meetings/api/meeting-router.ts:168-178 | Every input that passes the filter schema is `QueryOf` of its parse, so the accepted inputs and the filters correspond one to one. |
| MeetingsRouter.GetManyOfFilter | packages/api/src/routers/meetings/api/meeting-router.ts:163-222 | For an input that parses to a filter and an accepted page size, `getMany` answers iff page ≥ 1, and then with that page of the filter's listing. |
| MeetingsRouter.GetManyItemsMatch | packages/api/src/routers/meetings/api/meeting-router.ts:192-202 | Every item passes owner, search, status and agent filters, and items are newest first. |
| MeetingsRouter.EveryListedMeetingOnSomePage | packages/api/src/routers/meetings/api/meeting-router.ts:201-220 | Every filtered meeting appears on some page between 1 and `totalPages`. |
| MeetingsRouter.MeetingPageNonEmptyIff | packages/api/src/routers/meetings/api/meeting-router.ts:201-220 | A page has meetings iff 1 ≤ page ≤ `totalPages`. |
| AgentsRouter.FindOwned | packages/api/src/routers/agents/api/agent-router.ts:66-77 | Finds the caller's agent with that id, or reports that none exists. |
| AgentsRouter.Revise | packages/api/src/routers/agents/api/agent-router.ts:21-30 | Only the caller's rows with that id take the new name and instructions. |
| AgentsRouter.ReviseKeepsConstraints | packages/api/src/routers/agents/api/agent-router.ts:21-30 | Agent ids are unchanged, so primary keys and every meeting's reference survive. |
| AgentsRouter.Update | packages/api/src/routers/agents/api/agent-router.ts:18-40 | An invalid input is BAD_REQUEST. No owned agent is NOT_FOUND with nothing changed. Otherwise the revised row is returned, meetings are untouched, and keys are kept. |
| AgentsRouter.UpdateChangesOnlyThatAgent | packages/api/src/routers/agents/api/agent-router.ts:21-30 | With unique ids, only the returned agent changes. |
| AgentsRouter.RemoveKeepsReferences | packages/api/src/routers/agents/api/agent-router.ts:44-52 | After the delete and its cascade, every remaining meeting still has its agent and owner. |
| AgentsRouter.Remove | packages/api/src/routers/agents/api/agent-router.ts:41-62 | Deletes only the caller's agent rows with that id, and through the cascade exactly the meetings using that id, returning the agent. NOT_FOUND with nothing deleted otherwise. Keys kept. |
| AgentsRouter.MeetingCount | packages/api/src/routers/agents/api/agent-router.ts:69 | Never more than the number of meetings. |
| AgentsRouter.GetOne | packages/api/src/routers/agents/api/agent-router.ts:63-84 | NOT_FOUND iff the caller owns no agent with that id. Otherwise that agent with the count of meetings using it. |
| AgentsRouter.MeetingCountIsCascadeSize | packages/api/src/routers/agents/api/agent-router.ts:69 | The reported meeting count is exactly the number of meetings `remove` deletes with the agent. |
| AgentsRouter.Listed | packages/api/src/routers/agents/api/agent-router.ts:106-111 | Exactly the caller's agents whose name contains the search, ignoring case. |
| AgentsRouter.Ordered | packages/api/src/routers/agents/api/agent-router.ts:112 | As many agents as the filter lists. |
| AgentsRouter.OrderedIsSortedListing | packages/api/src/routers/agents/api/agent-router.ts:112 | Newest first, ties by id descending. A permutation of the filtered agents. |
| AgentsRouter.TotalPages | packages/api/src/routers/agents/api/agent-router.ts:126-127 | At least 1. Exactly 1 for an empty list. Otherwise the least n with n·pageSize ≥ total. |
| AgentsRouter.CountAll | packages/api/src/routers/agents/api/agent-router.ts:100-104 | Each agent keeps its place and gets its meeting count. |
| AgentsRouter.PageFor | packages/api/src/routers/agents/api/agent-router.ts:100-133 | Fails iff page < 1. The total is the filtered count, `totalPages` as above, at most pageSize items. |
| AgentsRouter.GetMany | packages/api/src/routers/agents/api/agent-router.ts:85-134 | A page size outside [1,100] is BAD_REQUEST. A page below 1 is INTERNAL_SERVER_ERROR. Succeeds iff neither applies, and then answers exactly `PageFor`'s page, with `totalPages ≥ 1`. |
| AgentsRouter.PageForItemAt | packages/api/src/routers/agents/api/agent-router.ts:112-114 | Entry k is the agent at place `(page-1)*pageSize + k` of the ordered list. |
| AgentsRouter.GetManyItemsMatch | packages/api/src/routers/agents/api/agent-router.ts:106-114 | Every item is the caller's and matches the search; items are newest first. |
| AgentsRouter.EmptyListingHasOnePage | packages/api/src/routers/agents/api/agent-router.ts:126-127 | With nothing listed, page 1 is empty but reported as 1 page. |
| Paging.ParsePaging | packages/api/src/routers/meetings/api/meeting-router.ts:166-167 | Defaults page 1 and size 10. A size below 1 is refused with exactly "Number must be greater than or equal to 1", one above 100 with exactly "Number must be less than or equal to 100"; an accepted size is within [1,100]. |
| Paging.PageOf | packages/api/src/routers/meetings/api/meeting-router.ts:201-202 | Absent iff page < 1. Otherwise at most pageSize rows, row k being row `(page-1)*pageSize + k`. |
| Paging.PageNonEmptyIff | packages/api/src/routers/meetings/api/meeting-router.ts:201-220 | A page has rows iff 1 ≤ page ≤ ceil(total/pageSize). |
| Paging.EveryRowOnItsPage | packages/api/src/routers/meetings/api/meeting-router.ts:201-202 | Row i is entry `i % pageSize` of page `i / pageSize + 1`, which is within the page count. |
| DataPagination.HandlePrev | apps/web/src/components/custom/data-pagination.tsx:15-20 | Emits iff `canGoPrev` (`page > 1`), and then `page - 1 ≥ 1`. |
| DataPagination.HandleNext | apps/web/src/components/custom/data-pagination.tsx:16-24 | Emits iff `canGoNext` (`totalPages > 0 && page < totalPages`), and then `page + 1 ≤ totalPages`. |
| DataPagination.ShownTotal | apps/web/src/components/custom/data-pagination.tsx:29 | Zero pages are shown as 1; any other count is shown as is. |
| DataPagination.ShownPage | apps/web/src/components/custom/data-pagination.tsx:29 | `min(page, shown total)`: at most both, and equal to one of them. |
| DataPagination.LabelInRange | apps/web/src/components/custom/data-pagination.tsx:29 | For page ≥ 1, `1 ≤ shown page ≤ shown total`. |
| DataPagination.PrevThenNext | apps/web/src/components/custom/data-pagination.tsx:15-24 | Back then forward returns to the same page. |
| DataPagination.EmptyMeetingsPager | apps/web/src/components/custom/data-pagination.tsx:16 | An empty meetings list has 0 pages: the label reads 1 of 1 and neither button emits. |
| DataPagination.NextLeadsToNonEmptyPage | apps/web/src/components/custom/data-pagination.tsx:22-24 | From a page the meetings query answered, next only leads to a page with meetings. |
| MeetingInput.BaseIssues | packages/api/src/routers/meetings/api/schemas.ts:3-6 | "Name is required" iff the name is all whitespace; "Agent is required" iff the agent id is empty. |
| MeetingInput.ParseInsert | packages/api/src/routers/meetings/api/schemas.ts:8 | Accepted iff the name is not blank and the agent id not empty. The output name is trimmed and the agent id is unchanged. Otherwise the messages in field order. |
| MeetingInput.ParseUpdate | packages/api/src/routers/meetings/api/schemas.ts:10-12 | As insert, plus "Id is required" iff the id is empty. |
| MeetingInput.ParsedNameIsTrimmed | packages/api/src/routers/meetings/api/schemas.ts:4 | The accepted name is non-empty with no whitespace at either end, and parsing it again changes nothing. |
| MeetingInput.BlankAgentIdAccepted | packages/api/src/routers/meetings/api/schemas.ts:4-5 | The agent id is not trimmed: any non-empty whitespace-only text passes unchanged as the agent id, while the same text as a name is refused with "Name is required". |
| MeetingInput.UpdateExtendsInsert | packages/api/src/routers/meetings/api/schemas.ts:10-12 | Update-valid implies insert-valid with the same name and agent. |
| AgentInput.BaseIssues | packages/api/src/routers/agents/api/schemas.ts:3-6 | "Name is required" iff the name is empty; "Instructions are required" iff the instructions are. |
| AgentInput.ParseInsert | packages/api/src/routers/agents/api/schemas.ts:8 | Accepted iff both are non-empty, and the fields pass through untrimmed. |
| AgentInput.ParseUpdate | packages/api/src/routers/agents/api/schemas.ts:10-12 | As insert, plus "ID is required" iff the id is empty. |
| AgentInput.BlankNameAccepted | packages/api/src/routers/agents/api/schemas.ts:4 | Any non-empty whitespace-only agent name passes unchanged. |
| MeetingSchema.Label | packages/db/src/schema/meeting.ts:6-12 | Every status has one of the five enum labels. |
| MeetingSchema.ParseLabel | packages/db/src/schema/meeting.ts:6-12 | A text is a status iff it is one of the five labels, and parsing inverts `Label`. |
| MeetingSchema.LabelRoundTrip | packages/db/src/schema/meeting.ts:6-12 | Parsing a status's label gives the status back. |
| MeetingSchema.NewMeeting | packages/db/src/schema/meeting.ts:14-42 | The id is the given one or a fresh one. The status is upcoming unless given. The five nullable columns are null, and both timestamps are the insert time. |
| MeetingSchema.DeleteAgentCascade | packages/db/src/schema/meeting.ts:27-29 | Exactly the meetings not using the agent remain; primary keys are kept. |
| MeetingSchema.CascadeRemovesAgentMeetings | packages/db/src/schema/meeting.ts:27-29 | The cascade removes as many meetings as use the agent. |
| MeetingSchema.DeleteUserCascade | packages/db/src/schema/meeting.ts:23-25 | Exactly the meetings of other users remain; primary keys are kept. |
| Database.FindAgent | apps/web/src/app/api/webhook/route.ts:64 | Finds an agent with that id, or reports that none exists. |
| Database.FindUser | packages/api/src/routers/meetings/api/meeting-router.ts:31 | Finds a user with that id, or reports that none exists. |
| Database.SameKeysKeepConstraints | packages/db/src/schema/meeting.ts:17-29 | Rewriting non-key columns keeps primary and foreign keys. |
| Text.TrimStart | packages/api/src/routers/meetings/api/schemas.ts:4 | A suffix without leading whitespace, with only whitespace cut. |
| Text.TrimEnd | packages/api/src/routers/meetings/api/schemas.ts:4 | A prefix without trailing whitespace, with only whitespace cut. |
| Text.TrimIsInfix | packages/api/src/routers/meetings/api/schemas.ts:4 | States `Trim` (`.trim()`): trimming keeps an infix with only whitespace on both sides and none at its ends. |
| Text.TrimEmptyIffBlank | packages/api/src/routers/meetings/api/schemas.ts:4 | States `Trim` (`.trim()`): the trimmed text is empty iff the text is all whitespace. |
| Text.TrimIdempotent | packages/api/src/routers/meetings/api/schemas.ts:4 | States `Trim` (`.trim()`): trimming twice is trimming once. |
| Text.ContainsIgnoringCaseFoldsSearch | packages/api/src/routers/meetings/api/meeting-router.ts:195 | States `ContainsIgnoringCase` (`ilike(name, %search%)`): the search text folded to lower case finds exactly the same names. |
| Text.ContainsVerbatim | packages/api/src/routers/agents/api/agent-router.ts:109 | A name holding the search text verbatim, anywhere in it, matches. |
| Text.LessTotal | packages/api/src/routers/meetings/api/meeting-router.ts:200 | Distinct ids are ordered one way or the other. |
| Text.LessTransitive | packages/api/src/routers/meetings/api/meeting-router.ts:200 | The id order is transitive. |
| Text.LessIrreflexive | packages/api/src/routers/meetings/api/meeting-router.ts:200 | The id order is irreflexive. |
| Text.LessAsymmetric | packages/api/src/routers/meetings/api/meeting-router.ts:200 | The id order is asymmetric. |
| Sql.Where | packages/api/src/routers/meetings/api/meeting-router.ts:192-199 | The kept rows all pass the condition, and every row passing it is kept. |
| Sql.WherePositions | packages/api/src/routers/meetings/api/meeting-router.ts:192-199 | The filter keeps exactly the passing rows, in table order. |
| Sql.WhereKeepsUnique | packages/api/src/routers/meetings/api/meeting-router.ts:117-120 | Deleting rows keeps keys distinct. |
| Sql.WhereDropsOne | packages/api/src/routers/meetings/api/meeting-router.ts:117-120 | A delete matching one row removes just that row. |
| Sql.WhereComplement | packages/db/src/schema/meeting.ts:29 | A condition and its negation split the table's size. |
| Sql.FirstIndex | apps/web/src/app/api/webhook/route.ts:43-54 | The first matching row, or none iff no row matches. |
| Sql.LimitOffset | packages/api/src/routers/meetings/api/meeting-router.ts:201-202 | `min(limit, rows - offset)` rows starting at the offset. |
| Sql.CeilDiv | packages/api/src/routers/meetings/api/meeting-router.ts:220 | The least n with n·size ≥ total. |
| Sql.NewerOrSameTotal | packages/api/src/routers/meetings/api/meeting-router.ts:200 | Any two rows are comparable under `created_at DESC, id DESC`. |
| Sql.NewerOrSameTransitive | packages/api/src/routers/meetings/api/meeting-router.ts:200 | The order is transitive. |
| Sql.InsertNewestFirst | packages/api/src/routers/meetings/api/meeting-router.ts:200 | Inserting into a sorted list keeps it sorted and adds exactly that row. |
| Sql.OrderNewestFirst | packages/api/src/routers/meetings/api/meeting-router.ts:200 | The result is sorted newest first and a permutation of the input. |

## Left out

- **Signature verification** (`verifyWebhook`). This is a foreign cryptographic check; its verdict is the input `signatureValid` of `Webhook.Post`.
- **JSON parsing of the body, exceptions, and the 500 reply of the catch-all** (`route.ts:259-262`). Thrown errors from the outside services are not modelled. An event `type` that is not a string is not modelled: the model takes `type` as a string.
- **The call/chat provider, the language model and the job queue.** What they do is not modelled. Each call that sends something (joining the agent, ending a call, queuing a job, the model request, the user upsert, the reply) is an entry appended to a ghost outbox in `Webhook.Effects`. The calls that read something are not outbox entries: the call roster of `call(..).get()` (`route.ts:87`), the channel messages of `channel.watch()` (`route.ts:179`) and the model's reply are inputs. Realtime sessions are recorded as `(call id, agent, instructions)`.
- **The prompt's wording.** `Webhook.SystemPrompt` keeps only the summary and the instructions, in that order, between fixed framing texts.
- **Avatar rendering.** An avatar is the pair `(seed, variant)` passed to the avatar generator.
- **Logging.** `console.warn` for an unknown event type and `console.error` in the catch-all (`route.ts:254,260`) have no effect on the answer or the tables and are not modelled.
- **Sql.NewerOrSame: the `id DESC` tie order.** Ids compare by code point (`Text.Less`). Postgres compares them under the column's collation, which can order letters of different case otherwise.
- **`ilike` wildcards and collation.** `%` and `_` in the search text are taken literally, and case is folded for ASCII letters only (`Text.ContainsIgnoringCase`).
- **Non-integer `page` and `pageSize`.** Both are integers, and `Math.ceil` is integer ceiling division.
- **Non-string `search`, `agentId` and `status` in `getMany`'s input.** Each is text or absent (`null` and `undefined` alike). The message for a refused status follows zod 3's wording for `z.enum`.
- **Postgres's refusal of a negative `OFFSET`.** It is modelled as `Rpc.InternalServerError`, and so is the foreign-key violation of a meeting `update` naming an unknown agent.
- **`getTranscript`'s fetch and JSONL parsing.** These are I/O: their result is the input `fetched`, absent on failure.
- **The token procedures** `generateChatToken` and `generateToken`. These are foreign identity calls using wall-clock time.
- **The commented-out `create` procedures** of both routers.
- **nanoid id generation.** The generated id is a parameter of `MeetingSchema.NewMeeting`.
- **Concurrency.** Each procedure and each webhook event is one atomic step.
- **The agent and user table definitions** (`agent.ts`, `auth.ts`) are not part of this model. Their rows carry only the columns the core reads.
- **AgentsRouter.GetMany: `total` falling back to 0.** `count()` always returns a row, so the fallback is not modelled.
- **MeetingsRouter.Joined, AgentsRouter.FindOwned and MeetingsRouter.FindOwned: the join and first-row reads.** These return the first matching row. A table with duplicate primary keys would make SQL return several rows, but `Db.Valid` rules that out.
