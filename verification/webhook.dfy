/**
 * The webhook endpoint of the call/chat provider: a signed event arrives, its `type` selects
 * one of six handlers, and the handler moves a meeting along its lifecycle, records artifact
 * URLs, queues the post-call processing job, ends an emptied call, or answers a chat message
 * about a completed meeting with a language-model reply posted as the meeting's agent.
 *
 * The tables live in a `Database.Db`; what the handler asks of the outside services is
 * recorded in the ghost outboxes of an `Effects` object. Signature checking, the call roster,
 * the channel's message list, the model's reply and the clock are inputs.
 */
module Webhook {
  import opened Wrappers
  import opened MeetingSchema
  import opened Database
  import opened Avatar
  import Sql
  import Text

  // ---------------------------------------------------------------- events and responses

  const SessionStartedType := "call.session_started"
  const ParticipantLeftType := "call.session_participant_left"
  const SessionEndedType := "call.session_ended"
  const TranscriptionReadyType := "call.transcription_ready"
  const RecordingReadyType := "call.recording_ready"
  const MessageNewType := "message.new"

  /** The fields of a delivered event that the handler reads. */
  datatype Payload = Payload(
    eventType: string,
    customMeetingId: Option<string>,
    callCid: Option<string>,
    transcriptionUrl: string,
    recordingUrl: string,
    userId: Option<string>,
    channelId: Option<string>,
    text: Option<string>)

  /** The JSON reply: `{status:"ok"}`, `{status:"ignored", eventType}`, or `{error}` with an HTTP status. */
  datatype Response = Success | Ignored(eventType: string) | Failure(status: nat, error: string)

  // ---------------------------------------------------------------- outside services

  /** An AI participant connected to a call, with the instructions pushed into its session. */
  datatype RealtimeSession = RealtimeSession(callId: string, agentUserId: string, instructions: string)

  /** A `meetings/processing` background job. */
  datatype ProcessingJob = ProcessingJob(meetingId: string, transcriptUrl: string)

  datatype Role = SystemRole | UserRole | AssistantRole

  /** One entry of the message list sent to the language model. */
  datatype ChatTurn = ChatTurn(role: Role, content: string)

  /** A message already in the chat channel. */
  datatype ChannelMessage = ChannelMessage(authorId: Option<string>, text: Option<string>)

  /** A chat user as upserted in the chat service. */
  datatype ChatIdentity = ChatIdentity(id: string, name: string, image: Image)

  /** A message sent to a chat channel. */
  datatype ChatPost = ChatPost(channelId: string, text: string, author: ChatIdentity)

  /** What the handler has asked of the outside services, oldest first. */
  class Effects {
    ghost var realtimeSessions: seq<RealtimeSession>
    ghost var endedCalls: seq<string>
    ghost var jobs: seq<ProcessingJob>
    ghost var modelRequests: seq<seq<ChatTurn>>
    ghost var chatUsers: seq<ChatIdentity>
    ghost var chatPosts: seq<ChatPost>

    constructor ()
      ensures realtimeSessions == [] && endedCalls == [] && jobs == []
      ensures modelRequests == [] && chatUsers == [] && chatPosts == []
    {
      realtimeSessions, endedCalls, jobs := [], [], [];
      modelRequests, chatUsers, chatPosts := [], [], [];
    }
  }

  // ---------------------------------------------------------------- meeting ids in events

  /** `s.split(":")[1]`: the text between the first colon and the next one (or the end);
      absent when there is no colon. */
  function SecondField(s: string): (r: Option<string>)
    ensures r.Some? <==> ':' in s
    ensures r.Some? ==> ':' !in r.value
    ensures r.Some? ==>
              exists i :: 0 <= i < |s| && s[i] == ':' && ':' !in s[..i]
                && i + 1 + |r.value| <= |s| && r.value == s[i + 1..i + 1 + |r.value|]
                && (i + 1 + |r.value| == |s| || s[i + 1 + |r.value|] == ':')
  {
    match Sql.FirstIndex(s, (c: char) => c == ':')
    case None => None
    case Some(i) =>
      var field := UpToColon(s[i + 1..]);
      FieldAfterColon(s, i);
      Some(field)
  }

  /** After the first colon, at `i`, the field runs to the next colon or the end. */
  lemma FieldAfterColon(s: string, i: nat)
    requires i < |s| && s[i] == ':'
    requires forall j :: 0 <= j < i ==> s[j] != ':'
    ensures var field := UpToColon(s[i + 1..]);
            && ':' !in s[..i]
            && i + 1 + |field| <= |s| && field == s[i + 1..i + 1 + |field|]
            && (i + 1 + |field| == |s| || s[i + 1 + |field|] == ':')
  {
    var field := UpToColon(s[i + 1..]);
    forall j | 0 <= j < i ensures s[..i][j] != ':' {
      assert s[..i][j] == s[j];
    }
    assert s[i + 1..i + 1 + |field|] == s[i + 1..][..|field|];
  }

  /** The text before the first colon, or all of `s` when it has none. */
  function UpToColon(s: string): (r: string)
    ensures ':' !in r
    ensures |r| <= |s| && r == s[..|r|]
    ensures |r| == |s| || s[|r|] == ':'
  {
    if s == [] || s[0] == ':' then [] else [s[0]] + UpToColon(s[1..])
  }

  /** The meeting id carried in a `call_cid` of the form `<call type>:<meeting id>`. */
  function CallCidMeetingId(callCid: Option<string>): (r: Option<string>)
    ensures r.Some? <==> callCid.Some? && ':' in callCid.value
    ensures r.Some? ==> ':' !in r.value
  {
    if callCid.None? then None else SecondField(callCid.value)
  }

  /** The provider builds `call_cid` as `<call type>:<meeting id>`; the handler gets the id back. */
  lemma CallCidRoundTrip(callType: string, meetingId: string)
    requires ':' !in callType && ':' !in meetingId
    ensures CallCidMeetingId(Some(callType + ":" + meetingId)) == Some(meetingId)
  {
    var s := callType + ":" + meetingId;
    var i := |callType|;
    assert s[i] == ':';
    match Sql.FirstIndex(s, (c: char) => c == ':')
    case Some(k) =>
      assert k == i;
      assert s[i + 1..] == meetingId;
      var field := UpToColon(meetingId);
      assert field == meetingId[..|meetingId|] == meetingId;
      assert SecondField(s) == Some(UpToColon(s[k + 1..]));
  }

  // ---------------------------------------------------------------- lifecycle transitions

  /** The guard of `call.session_started`: none of completed, active, cancelled, processing. */
  predicate MayStart(s: MeetingStatus)
    ensures MayStart(s) <==> s == Upcoming
  {
    s != Completed && s != Active && s != Cancelled && s != Processing
  }

  /** The first row with this id that may start. */
  function FindStartable(rows: seq<Meeting>, id: string): (r: Option<nat>)
    ensures r.Some? ==> r.value < |rows| && rows[r.value].id == id && rows[r.value].status == Upcoming
    ensures r.None? <==> forall j :: 0 <= j < |rows| ==> !(rows[j].id == id && rows[j].status == Upcoming)
  {
    Sql.FirstIndex(rows, (m: Meeting) => m.id == id && MayStart(m.status))
  }

  /** The first row with this id, whatever its status. */
  function FindMeeting(rows: seq<Meeting>, id: string): (r: Option<nat>)
    ensures r.Some? ==> r.value < |rows| && rows[r.value].id == id
    ensures r.None? <==> forall j :: 0 <= j < |rows| ==> rows[j].id != id
  {
    Sql.FirstIndex(rows, (m: Meeting) => m.id == id)
  }

  /** The first completed row with this id. */
  function FindCompleted(rows: seq<Meeting>, id: string): (r: Option<nat>)
    ensures r.Some? ==> r.value < |rows| && rows[r.value].id == id && rows[r.value].status == Completed
    ensures r.None? <==> forall j :: 0 <= j < |rows| ==> !(rows[j].id == id && rows[j].status == Completed)
  {
    Sql.FirstIndex(rows, (m: Meeting) => m.id == id && m.status == Completed)
  }

  /** `UPDATE meetings SET status = 'active', started_at = now WHERE id = $id`. */
  function MarkStarted(rows: seq<Meeting>, id: string, now: Timestamp): (r: seq<Meeting>)
    ensures |r| == |rows|
    ensures forall j :: 0 <= j < |rows| ==>
      r[j] == if rows[j].id == id then rows[j].(status := Active, startedAt := Some(now)) else rows[j]
  {
    seq(|rows|, j requires 0 <= j < |rows| =>
      if rows[j].id == id then rows[j].(status := Active, startedAt := Some(now)) else rows[j])
  }

  /** `UPDATE meetings SET status = 'processing', ended_at = now WHERE id = $id AND status = 'active'`. */
  function MarkEnded(rows: seq<Meeting>, id: string, now: Timestamp): (r: seq<Meeting>)
    ensures |r| == |rows|
    ensures forall j :: 0 <= j < |rows| ==>
      r[j] == if rows[j].id == id && rows[j].status == Active
              then rows[j].(status := Processing, endedAt := Some(now)) else rows[j]
  {
    seq(|rows|, j requires 0 <= j < |rows| =>
      if rows[j].id == id && rows[j].status == Active
      then rows[j].(status := Processing, endedAt := Some(now)) else rows[j])
  }

  /** `UPDATE meetings SET transcript_url = $url WHERE id = $id`. */
  function SetTranscriptUrl(rows: seq<Meeting>, id: string, url: string): (r: seq<Meeting>)
    ensures |r| == |rows|
    ensures forall j :: 0 <= j < |rows| ==>
      r[j] == if rows[j].id == id then rows[j].(transcriptUrl := Some(url)) else rows[j]
  {
    seq(|rows|, j requires 0 <= j < |rows| =>
      if rows[j].id == id then rows[j].(transcriptUrl := Some(url)) else rows[j])
  }

  /** `UPDATE meetings SET recording_url = $url WHERE id = $id`. */
  function SetRecordingUrl(rows: seq<Meeting>, id: string, url: string): (r: seq<Meeting>)
    ensures |r| == |rows|
    ensures forall j :: 0 <= j < |rows| ==>
      r[j] == if rows[j].id == id then rows[j].(recordingUrl := Some(url)) else rows[j]
  {
    seq(|rows|, j requires 0 <= j < |rows| =>
      if rows[j].id == id then rows[j].(recordingUrl := Some(url)) else rows[j])
  }

  /** After a start, no row with that id may start again: a redelivered
      `call.session_started` finds nothing and is answered 404. */
  lemma RestartFindsNothing(rows: seq<Meeting>, id: string, now: Timestamp)
    ensures FindStartable(MarkStarted(rows, id, now), id) == None
  {
    var after := MarkStarted(rows, id, now);
    forall j | 0 <= j < |after| ensures !(after[j].id == id && after[j].status == Upcoming) {
    }
  }

  /** An end event against a meeting that is not active leaves every row as it was. */
  lemma EndWithoutActiveChangesNothing(rows: seq<Meeting>, id: string, now: Timestamp)
    requires forall j :: 0 <= j < |rows| ==> !(rows[j].id == id && rows[j].status == Active)
    ensures MarkEnded(rows, id, now) == rows
  {
    var after := MarkEnded(rows, id, now);
    assert forall j :: 0 <= j < |rows| ==> after[j] == rows[j];
  }

  /** A second end event changes nothing: the first one left no active row with that id. */
  lemma EndTwiceIsEndOnce(rows: seq<Meeting>, id: string, now: Timestamp, later: Timestamp)
    ensures MarkEnded(MarkEnded(rows, id, now), id, later) == MarkEnded(rows, id, now)
  {
    EndWithoutActiveChangesNothing(MarkEnded(rows, id, now), id, later);
  }

  /** Started only after the guard found an upcoming row, and with ids unique, the start moves
      that one row forward in the lifecycle and touches no other. */
  lemma {:induction false} StartAdvances(rows: seq<Meeting>, id: string, now: Timestamp)
    requires Sql.UniqueBy(rows, MeetingKey)
    requires FindStartable(rows, id).Some?
    ensures forall j :: 0 <= j < |rows| ==> Advances(rows[j].status, MarkStarted(rows, id, now)[j].status)
    ensures forall j :: 0 <= j < |rows| && j != FindStartable(rows, id).value ==>
              MarkStarted(rows, id, now)[j] == rows[j]
  {
    var i := FindStartable(rows, id).value;
    forall j | 0 <= j < |rows| && j != i ensures rows[j].id != id {
      if j < i {
        assert MeetingKey(rows[j]) != MeetingKey(rows[i]);
      } else {
        assert MeetingKey(rows[i]) != MeetingKey(rows[j]);
      }
    }
  }

  /** The end transition only ever moves a row forward (active to processing). */
  lemma EndAdvances(rows: seq<Meeting>, id: string, now: Timestamp)
    ensures forall j :: 0 <= j < |rows| ==> Advances(rows[j].status, MarkEnded(rows, id, now)[j].status)
  {
  }

  // ---------------------------------------------------------------- participant left

  /** The roster members that still count: any role but `removed` and `left`. */
  function Remaining(roles: seq<string>): seq<string> {
    Sql.Where(roles, (role: string) => role != "removed" && role != "left")
  }

  /** The call is ended when the roster is unavailable or nobody remains in it. */
  predicate ShouldEndCall(roster: Option<seq<string>>) {
    roster.None? || |Remaining(roster.value)| == 0
  }

  /** Nobody remains exactly when every member's role is `removed` or `left`. */
  lemma ShouldEndCallIff(roles: seq<string>)
    ensures ShouldEndCall(Some(roles)) <==> forall i :: 0 <= i < |roles| ==> roles[i] == "removed" || roles[i] == "left"
  {
    if |Remaining(roles)| != 0 {
      assert Remaining(roles)[0] in roles;
    }
  }

  // ---------------------------------------------------------------- chat reply

  /** How many channel messages the reply looks back at. */
  const HistoryLimit: nat := 5

  /** `messages.slice(-n)`: the last `n` messages, or all of them when there are fewer. */
  function LastMessages<T>(messages: seq<T>, n: nat): (r: seq<T>)
    ensures |r| == Sql.Min(n, |messages|)
    ensures r == messages[|messages| - |r|..]
  {
    if |messages| <= n then messages else messages[|messages| - n..]
  }

  /** `msg.text && msg.text.trim() !== ""`. */
  predicate HasText(m: ChannelMessage) {
    Truthy(m.text) && Text.Trim(m.text.value) != ""
  }

  /** A message has text for the history exactly when its text is present and not all whitespace. */
  lemma HasTextIff(m: ChannelMessage)
    ensures HasText(m) <==> m.text.Some? && !Text.IsBlank(m.text.value)
  {
    if m.text.Some? {
      Text.TrimEmptyIffBlank(m.text.value);
    }
  }

  /** One history entry: the agent's own messages are the assistant's, all others the user's. */
  function Turn(m: ChannelMessage, agentId: string): (t: ChatTurn)
    requires m.text.Some?
    ensures t.content == m.text.value
    ensures t.role == AssistantRole <==> m.authorId == Some(agentId)
    ensures t.role != SystemRole
  {
    ChatTurn(if m.authorId == Some(agentId) then AssistantRole else UserRole, m.text.value)
  }

  /** The history given to the model: the last five channel messages, then those with text. */
  function History(messages: seq<ChannelMessage>, agentId: string): (r: seq<ChatTurn>)
    ensures |r| <= HistoryLimit
    ensures |r| == |HistoryPositions(messages)|
  {
    var kept := Sql.Where(LastMessages(messages, HistoryLimit), HasText);
    seq(|kept|, k requires 0 <= k < |kept| => Turn(kept[k], agentId))
  }

  /** The positions in the channel of the messages that make up the history. */
  function HistoryPositions(messages: seq<ChannelMessage>): seq<nat> {
    var window := LastMessages(messages, HistoryLimit);
    var pos := Sql.WherePositions(window, HasText);
    seq(|pos|, k requires 0 <= k < |pos| => pos[k] + (|messages| - |window|))
  }

  /** The last five messages start at this channel position. */
  function WindowStart(messages: seq<ChannelMessage>): nat {
    |messages| - Sql.Min(HistoryLimit, |messages|)
  }

  /**
   * Entry `k` of the history comes from channel position `HistoryPositions(..)[k]`, a
   * message among the last five that has text, tagged by its author.
   */
  lemma HistoryEntryFromRecentText(messages: seq<ChannelMessage>, agentId: string, k: nat)
    requires k < |HistoryPositions(messages)|
    ensures k < |History(messages, agentId)|
    ensures WindowStart(messages) <= HistoryPositions(messages)[k] < |messages|
    ensures HasText(messages[HistoryPositions(messages)[k]])
    ensures History(messages, agentId)[k] == Turn(messages[HistoryPositions(messages)[k]], agentId)
  {
    var window := LastMessages(messages, HistoryLimit);
    var off := |messages| - |window|;
    var wpos := Sql.WherePositions(window, HasText);
    var kept := Sql.Where(window, HasText);
    var i := HistoryPositions(messages)[k];
    assert i == wpos[k] + off;
    assert kept[k] == window[wpos[k]];
    assert window[wpos[k]] == messages[i];
    assert HasText(kept[k]);
  }

  /** The history keeps channel order: its positions increase. */
  lemma HistoryKeepsOrder(messages: seq<ChannelMessage>)
    ensures forall k, l :: 0 <= k < l < |HistoryPositions(messages)| ==>
              HistoryPositions(messages)[k] < HistoryPositions(messages)[l]
  {
  }

  /** Every message with text among the last five has its entry in the history; blank ones
      are dropped AFTER the cut, so the history can be shorter than five even when older
      messages have text. */
  lemma HistoryCoversRecentText(messages: seq<ChannelMessage>)
    ensures forall i :: WindowStart(messages) <= i < |messages| && HasText(messages[i]) ==>
              i in HistoryPositions(messages)
  {
    forall i | WindowStart(messages) <= i < |messages| && HasText(messages[i]) ensures i in HistoryPositions(messages) {
      var k := RecentTextInHistory(messages, i);
    }
  }

  /** One message with text among the last five has its place `k` in the history. */
  lemma RecentTextInHistory(messages: seq<ChannelMessage>, i: nat) returns (k: nat)
    requires WindowStart(messages) <= i < |messages| && HasText(messages[i])
    ensures k < |HistoryPositions(messages)| && HistoryPositions(messages)[k] == i
  {
    var window := LastMessages(messages, HistoryLimit);
    RecentMessageInWindow(messages, i);
    k := KeptPosition(window, i - WindowStart(messages));
    HistoryPositionAt(messages, k);
  }

  /** Channel position `i` of the last five is place `i - WindowStart` of the window. */
  lemma RecentMessageInWindow(messages: seq<ChannelMessage>, i: nat)
    requires WindowStart(messages) <= i < |messages|
    ensures LastMessages(messages, HistoryLimit)[i - WindowStart(messages)] == messages[i]
  {
  }

  /** A window message with text is kept by the filter, at some index `k`. */
  lemma KeptPosition(window: seq<ChannelMessage>, j: nat) returns (k: nat)
    requires j < |window| && HasText(window[j])
    ensures k < |Sql.WherePositions(window, HasText)| && Sql.WherePositions(window, HasText)[k] == j
  {
    k := Sql.PositionOf(Sql.WherePositions(window, HasText), window, HasText, j);
  }

  /** Position `k` of the history is the `k`-th kept place in the window, moved to the channel. */
  lemma HistoryPositionAt(messages: seq<ChannelMessage>, k: nat)
    requires k < |Sql.WherePositions(LastMessages(messages, HistoryLimit), HasText)|
    ensures k < |HistoryPositions(messages)|
    ensures HistoryPositions(messages)[k] ==
            Sql.WherePositions(LastMessages(messages, HistoryLimit), HasText)[k] + WindowStart(messages)
  {
  }

  /** The cut comes first: once five newer messages exist, older ones never reach the model,
      even when all five newer ones are blank and the older ones have text. */
  lemma OnlyLastFiveCount(older: seq<ChannelMessage>, recent: seq<ChannelMessage>, agentId: string)
    requires |recent| == HistoryLimit
    ensures History(older + recent, agentId) == History(recent, agentId)
  {
    assert LastMessages(older + recent, HistoryLimit) == recent;
  }

  /** The system prompt built from the meeting summary and the agent's instructions. Its
      wording is not modelled; only what it is built from, in this order. */
  function SystemPrompt(summary: string, instructions: string): string {
    "<revisit the completed meeting>" + summary + "<keep to these instructions>" + instructions
  }

  /** The message list sent to the model: the system prompt, the history, then the new message. */
  function ModelRequest(systemPrompt: string, history: seq<ChatTurn>, text: string): seq<ChatTurn> {
    [ChatTurn(SystemRole, systemPrompt)] + history + [ChatTurn(UserRole, text)]
  }

  /** The model sees one system entry, first; then the history in order; the new message last;
      and never more than seven entries. */
  lemma ModelRequestShape(messages: seq<ChannelMessage>, agentId: string, prompt: string, text: string)
    ensures var h := History(messages, agentId);
            var req := ModelRequest(prompt, h, text);
            && 2 <= |req| <= HistoryLimit + 2
            && req[0] == ChatTurn(SystemRole, prompt)
            && req[1..|req| - 1] == h
            && req[|req| - 1] == ChatTurn(UserRole, text)
            && (forall k :: 1 <= k < |req| ==> req[k].role != SystemRole)
  {
    var h := History(messages, agentId);
    var req := ModelRequest(prompt, h, text);
    assert req[1..|req| - 1] == h;
    forall k | 1 <= k < |req| - 1 ensures req[k].role != SystemRole {
      assert req[k] == h[k - 1];
    }
  }

  /** The agent's chat identity: its id and name, with its generated bot avatar. */
  function AgentIdentity(agent: Agent): (u: ChatIdentity)
    ensures u.id == agent.id && u.name == agent.name
    ensures u.image == Generated(agent.name, BotttsNeutral)
  {
    ChatIdentity(agent.id, agent.name, Generated(agent.name, BotttsNeutral))
  }

  // ---------------------------------------------------------------- per-event contracts

  /** The tables after a handler: meetings as given, agents and users untouched. */
  twostate predicate Stored(db: Db, meetings: seq<Meeting>)
    reads db
  {
    db.meetings == meetings && db.agents == old(db.agents) && db.users == old(db.users)
  }

  /** The outboxes after a handler: each grown by exactly the given entries. */
  twostate predicate Emitted(fx: Effects, sessions: seq<RealtimeSession>, ended: seq<string>,
                             jobs: seq<ProcessingJob>, requests: seq<seq<ChatTurn>>,
                             users: seq<ChatIdentity>, posts: seq<ChatPost>)
    reads fx
  {
    && fx.realtimeSessions == old(fx.realtimeSessions) + sessions
    && fx.endedCalls == old(fx.endedCalls) + ended
    && fx.jobs == old(fx.jobs) + jobs
    && fx.modelRequests == old(fx.modelRequests) + requests
    && fx.chatUsers == old(fx.chatUsers) + users
    && fx.chatPosts == old(fx.chatPosts) + posts
  }

  /** Nothing stored and nothing sent. */
  twostate predicate NoEffect(db: Db, fx: Effects)
    reads db, fx
  {
    Stored(db, old(db.meetings)) && Emitted(fx, [], [], [], [], [], [])
  }

  /** `call.session_started`: an upcoming meeting becomes active (committed before the agent
      lookup), then the agent joins the call with its instructions. */
  twostate predicate SessionStartedOutcome(db: Db, fx: Effects, customMeetingId: Option<string>,
                                           now: Timestamp, r: Response)
    reads db, fx
  {
    if !Truthy(customMeetingId) then
      r == Failure(400, "Missing meetingId") && NoEffect(db, fx)
    else
      var id := customMeetingId.value;
      var before := old(db.meetings);
      match FindStartable(before, id)
      case None => r == Failure(404, "Meeting not found") && NoEffect(db, fx)
      case Some(i) =>
        && Stored(db, MarkStarted(before, id, now))
        && match FindAgent(old(db.agents), before[i].agentId)
           case None => r == Failure(404, "Agent not found") && Emitted(fx, [], [], [], [], [], [])
           case Some(a) =>
             var agent := old(db.agents)[a];
             r == Success && Emitted(fx, [RealtimeSession(id, agent.id, agent.instructions)], [], [], [], [], [])
  }

  /** `call.session_participant_left`: the call is ended when nobody remains; no row changes. */
  twostate predicate ParticipantLeftOutcome(db: Db, fx: Effects, callCid: Option<string>,
                                            roster: Option<seq<string>>, r: Response)
    reads db, fx
  {
    var id := CallCidMeetingId(callCid);
    if !Truthy(id) then
      r == Failure(400, "Missing meetingId") && NoEffect(db, fx)
    else
      && r == Success
      && Stored(db, old(db.meetings))
      && Emitted(fx, [], if ShouldEndCall(roster) then [id.value] else [], [], [], [], [])
  }

  /** `call.session_ended`: an active meeting moves to processing; any other is left alone,
      and the answer is `ok` either way. */
  twostate predicate SessionEndedOutcome(db: Db, fx: Effects, customMeetingId: Option<string>,
                                         now: Timestamp, r: Response)
    reads db, fx
  {
    if !Truthy(customMeetingId) then
      r == Failure(400, "Missing meetingId") && NoEffect(db, fx)
    else
      && r == Success
      && Stored(db, MarkEnded(old(db.meetings), customMeetingId.value, now))
      && Emitted(fx, [], [], [], [], [], [])
  }

  /** `call.transcription_ready`: the transcript URL is recorded, whatever the status, and
      one processing job carrying the meeting id and that URL is queued. */
  twostate predicate TranscriptionReadyOutcome(db: Db, fx: Effects, callCid: Option<string>,
                                               url: string, r: Response)
    reads db, fx
  {
    var id := CallCidMeetingId(callCid);
    if !Truthy(id) then
      r == Failure(400, "Missing meetingId") && NoEffect(db, fx)
    else if FindMeeting(old(db.meetings), id.value).None? then
      r == Failure(404, "Meeting not found") && NoEffect(db, fx)
    else
      && r == Success
      && Stored(db, SetTranscriptUrl(old(db.meetings), id.value, url))
      && Emitted(fx, [], [], [ProcessingJob(id.value, url)], [], [], [])
  }

  /** `call.recording_ready`: the recording URL is recorded, whatever the status. */
  twostate predicate RecordingReadyOutcome(db: Db, fx: Effects, callCid: Option<string>,
                                           url: string, r: Response)
    reads db, fx
  {
    var id := CallCidMeetingId(callCid);
    if !Truthy(id) then
      r == Failure(400, "Missing meetingId") && NoEffect(db, fx)
    else if FindMeeting(old(db.meetings), id.value).None? then
      r == Failure(404, "Meeting not found") && NoEffect(db, fx)
    else
      && r == Success
      && Stored(db, SetRecordingUrl(old(db.meetings), id.value, url))
      && Emitted(fx, [], [], [], [], [], [])
  }

  /** `message.new`: the guard chain, then one model request, then (given a reply) the agent's
      identity upserted and the reply posted to the channel. No table changes. */
  twostate predicate MessageNewOutcome(db: Db, fx: Effects, userId: Option<string>,
                                       channelId: Option<string>, text: Option<string>,
                                       channelMessages: seq<ChannelMessage>,
                                       modelReply: Option<string>, r: Response)
    reads db, fx
  {
    if !Truthy(userId) || !Truthy(channelId) || !Truthy(text) then
      r == Failure(400, "Invalid message payload") && NoEffect(db, fx)
    else
      match FindCompleted(old(db.meetings), channelId.value)
      case None => r == Failure(404, "Meeting not found") && NoEffect(db, fx)
      case Some(i) =>
        var meeting := old(db.meetings)[i];
        match FindAgent(old(db.agents), meeting.agentId)
        case None => r == Failure(404, "Agent not found") && NoEffect(db, fx)
        case Some(a) =>
          var agent := old(db.agents)[a];
          if userId.value == agent.id then
            r == Success && NoEffect(db, fx)
          else if !Truthy(meeting.summary) then
            r == Failure(400, "Meeting summary not yet available") && NoEffect(db, fx)
          else
            var request := ModelRequest(SystemPrompt(meeting.summary.value, agent.instructions),
                                        History(channelMessages, agent.id), text.value);
            && Stored(db, old(db.meetings))
            && if !Truthy(modelReply) then
                 r == Failure(400, "No response from GPT") && Emitted(fx, [], [], [], [request], [], [])
               else
                 var identity := AgentIdentity(agent);
                 && r == Success
                 && Emitted(fx, [], [], [], [request], [identity],
                            [ChatPost(channelId.value, modelReply.value, identity)])
  }

  /** The event handler selected by the payload's type. */
  twostate predicate EventOutcome(db: Db, fx: Effects, p: Payload, now: Timestamp,
                                  roster: Option<seq<string>>, channelMessages: seq<ChannelMessage>,
                                  modelReply: Option<string>, r: Response)
    reads db, fx
  {
    if p.eventType == SessionStartedType then SessionStartedOutcome(db, fx, p.customMeetingId, now, r)
    else if p.eventType == ParticipantLeftType then ParticipantLeftOutcome(db, fx, p.callCid, roster, r)
    else if p.eventType == SessionEndedType then SessionEndedOutcome(db, fx, p.customMeetingId, now, r)
    else if p.eventType == TranscriptionReadyType then TranscriptionReadyOutcome(db, fx, p.callCid, p.transcriptionUrl, r)
    else if p.eventType == RecordingReadyType then RecordingReadyOutcome(db, fx, p.callCid, p.recordingUrl, r)
    else if p.eventType == MessageNewType then
      MessageNewOutcome(db, fx, p.userId, p.channelId, p.text, channelMessages, modelReply, r)
    else r == Ignored(p.eventType) && NoEffect(db, fx)
  }

  // ---------------------------------------------------------------- the handlers

  /** A handler rewrites only non-key columns of `meetings` and leaves `agents` and `users`. */
  twostate predicate KeysKept(db: Db)
    reads db
  {
    && |db.meetings| == |old(db.meetings)|
    && (forall j :: 0 <= j < |db.meetings| ==>
          && db.meetings[j].id == old(db.meetings)[j].id
          && db.meetings[j].agentId == old(db.meetings)[j].agentId
          && db.meetings[j].userId == old(db.meetings)[j].userId)
    && db.agents == old(db.agents) && db.users == old(db.users)
  }

  method SessionStarted(db: Db, fx: Effects, customMeetingId: Option<string>, now: Timestamp)
    returns (r: Response)
    modifies db, fx
    ensures SessionStartedOutcome(db, fx, customMeetingId, now, r)
    ensures KeysKept(db)
  {
    if !Truthy(customMeetingId) {
      return Failure(400, "Missing meetingId");
    }
    var id := customMeetingId.value;
    var found := FindStartable(db.meetings, id);
    if found.None? {
      return Failure(404, "Meeting not found");
    }
    var meeting := db.meetings[found.value];
    db.meetings := MarkStarted(db.meetings, meeting.id, now);
    var a := FindAgent(db.agents, meeting.agentId);
    if a.None? {
      return Failure(404, "Agent not found");
    }
    var agent := db.agents[a.value];
    fx.realtimeSessions := fx.realtimeSessions + [RealtimeSession(id, agent.id, agent.instructions)];
    r := Success;
  }

  method ParticipantLeft(db: Db, fx: Effects, callCid: Option<string>, roster: Option<seq<string>>)
    returns (r: Response)
    modifies fx
    ensures ParticipantLeftOutcome(db, fx, callCid, roster, r)
    ensures KeysKept(db)
  {
    var id := CallCidMeetingId(callCid);
    if !Truthy(id) {
      return Failure(400, "Missing meetingId");
    }
    if roster.None? || |Remaining(roster.value)| == 0 {
      fx.endedCalls := fx.endedCalls + [id.value];
    }
    r := Success;
  }

  method SessionEnded(db: Db, fx: Effects, customMeetingId: Option<string>, now: Timestamp)
    returns (r: Response)
    modifies db
    ensures SessionEndedOutcome(db, fx, customMeetingId, now, r)
    ensures KeysKept(db)
  {
    if !Truthy(customMeetingId) {
      return Failure(400, "Missing meetingId");
    }
    db.meetings := MarkEnded(db.meetings, customMeetingId.value, now);
    r := Success;
  }

  method TranscriptionReady(db: Db, fx: Effects, callCid: Option<string>, url: string)
    returns (r: Response)
    modifies db, fx
    ensures TranscriptionReadyOutcome(db, fx, callCid, url, r)
    ensures KeysKept(db)
  {
    var id := CallCidMeetingId(callCid);
    if !Truthy(id) {
      return Failure(400, "Missing meetingId");
    }
    var updated := FindMeeting(db.meetings, id.value);
    db.meetings := SetTranscriptUrl(db.meetings, id.value, url);
    if updated.None? {
      assert SetTranscriptUrl(old(db.meetings), id.value, url) == old(db.meetings);
      return Failure(404, "Meeting not found");
    }
    var meeting := db.meetings[updated.value];
    fx.jobs := fx.jobs + [ProcessingJob(meeting.id, meeting.transcriptUrl.value)];
    r := Success;
  }

  method RecordingReady(db: Db, fx: Effects, callCid: Option<string>, url: string)
    returns (r: Response)
    modifies db
    ensures RecordingReadyOutcome(db, fx, callCid, url, r)
    ensures KeysKept(db)
  {
    var id := CallCidMeetingId(callCid);
    if !Truthy(id) {
      return Failure(400, "Missing meetingId");
    }
    var updated := FindMeeting(db.meetings, id.value);
    db.meetings := SetRecordingUrl(db.meetings, id.value, url);
    if updated.None? {
      assert SetRecordingUrl(old(db.meetings), id.value, url) == old(db.meetings);
      return Failure(404, "Meeting not found");
    }
    r := Success;
  }

  method MessageNew(db: Db, fx: Effects, userId: Option<string>, channelId: Option<string>,
                    text: Option<string>, channelMessages: seq<ChannelMessage>, modelReply: Option<string>)
    returns (r: Response)
    modifies fx
    ensures MessageNewOutcome(db, fx, userId, channelId, text, channelMessages, modelReply, r)
    ensures KeysKept(db)
  {
    if !Truthy(userId) || !Truthy(channelId) || !Truthy(text) {
      return Failure(400, "Invalid message payload");
    }
    var found := FindCompleted(db.meetings, channelId.value);
    if found.None? {
      return Failure(404, "Meeting not found");
    }
    var meeting := db.meetings[found.value];
    var a := FindAgent(db.agents, meeting.agentId);
    if a.None? {
      return Failure(404, "Agent not found");
    }
    var agent := db.agents[a.value];
    if userId.value != agent.id {
      var history := History(channelMessages, agent.id);
      if !Truthy(meeting.summary) {
        return Failure(400, "Meeting summary not yet available");
      }
      var request := ModelRequest(SystemPrompt(meeting.summary.value, agent.instructions), history, text.value);
      r := AskAndReply(fx, request, modelReply, channelId.value, agent);
      return;
    }
    r := Success;
  }

  /** The model request, then, when the model answered, the agent's identity upserted and
      its reply posted to the channel. */
  method AskAndReply(fx: Effects, request: seq<ChatTurn>, modelReply: Option<string>, channelId: string,
                     agent: Agent)
    returns (r: Response)
    modifies fx
    ensures !Truthy(modelReply) ==>
              r == Failure(400, "No response from GPT") && Emitted(fx, [], [], [], [request], [], [])
    ensures Truthy(modelReply) ==>
              && r == Success
              && Emitted(fx, [], [], [], [request], [AgentIdentity(agent)],
                         [ChatPost(channelId, modelReply.value, AgentIdentity(agent))])
  {
    fx.modelRequests := fx.modelRequests + [request];
    if !Truthy(modelReply) {
      return Failure(400, "No response from GPT");
    }
    var identity := AgentIdentity(agent);
    fx.chatUsers := fx.chatUsers + [identity];
    fx.chatPosts := fx.chatPosts + [ChatPost(channelId, modelReply.value, identity)];
    r := Success;
  }

  /** A redelivered `call.session_started` is answered 404 and leaves the tables and the
      outboxes as the first delivery left them: the two deliveries together have exactly the
      outcome of the first one, whichever of its answers it gave. */
  method RedeliveredStart(db: Db, fx: Effects, id: string, now: Timestamp, later: Timestamp)
    returns (first: Response, second: Response)
    modifies db, fx
    requires id != ""
    ensures second == Failure(404, "Meeting not found")
    ensures SessionStartedOutcome(db, fx, Some(id), now, first)
    ensures db.meetings == if FindStartable(old(db.meetings), id).Some?
                           then MarkStarted(old(db.meetings), id, now) else old(db.meetings)
  {
    first := SessionStarted(db, fx, Some(id), now);
    label delivered:
    if first != Failure(404, "Meeting not found") {
      RestartFindsNothing(old(db.meetings), id, now);
    }
    second := SessionStarted(db, fx, Some(id), later);
    assert NoEffect@delivered(db, fx);
  }

  /**
   * `POST /api/webhook`. Without both the signature and the API-key header: 400. With a
   * signature that does not verify against the raw body: 401. Otherwise the event's handler,
   * or `ignored` for an unknown type. Primary and foreign keys are never broken.
   */
  method Post(db: Db, fx: Effects, signature: Option<string>, apiKey: Option<string>,
              signatureValid: bool, p: Payload, now: Timestamp, roster: Option<seq<string>>,
              channelMessages: seq<ChannelMessage>, modelReply: Option<string>)
    returns (r: Response)
    modifies db, fx
    ensures !Truthy(signature) || !Truthy(apiKey) ==> r == Failure(400, "Missing headers") && NoEffect(db, fx)
    ensures Truthy(signature) && Truthy(apiKey) && !signatureValid ==>
              r == Failure(401, "Invalid signature") && NoEffect(db, fx)
    ensures Truthy(signature) && Truthy(apiKey) && signatureValid ==>
              EventOutcome(db, fx, p, now, roster, channelMessages, modelReply, r)
    ensures old(db.Valid()) ==> db.Valid()
    ensures old(db.Intact()) ==> db.Intact()
  {
    if !Truthy(signature) || !Truthy(apiKey) {
      return Failure(400, "Missing headers");
    }
    if !signatureValid {
      return Failure(401, "Invalid signature");
    }
    ghost var before := db.meetings;
    if p.eventType == SessionStartedType {
      r := SessionStarted(db, fx, p.customMeetingId, now);
    } else if p.eventType == ParticipantLeftType {
      r := ParticipantLeft(db, fx, p.callCid, roster);
    } else if p.eventType == SessionEndedType {
      r := SessionEnded(db, fx, p.customMeetingId, now);
    } else if p.eventType == TranscriptionReadyType {
      r := TranscriptionReady(db, fx, p.callCid, p.transcriptionUrl);
    } else if p.eventType == RecordingReadyType {
      r := RecordingReady(db, fx, p.callCid, p.recordingUrl);
    } else if p.eventType == MessageNewType {
      r := MessageNew(db, fx, p.userId, p.channelId, p.text, channelMessages, modelReply);
    } else {
      return Ignored(p.eventType);
    }
    SameKeysKeepConstraints(before, db.meetings, db.agents, db.users);
  }
}
