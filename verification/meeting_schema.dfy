/**
 * The `meetings` table: its status enum, its row shape (required columns, nullable columns),
 * the defaults an insert fills in, and what `ON DELETE CASCADE` on its two references does.
 */
module MeetingSchema {
  import opened Wrappers
  import Sql

  /** Instants as the database stores them. */
  type Timestamp = int

  datatype MeetingStatus = Upcoming | Active | Completed | Processing | Cancelled

  /** The labels of the `meeting_status` enum, in declaration order. */
  const StatusLabels: seq<string> := ["upcoming", "active", "completed", "processing", "cancelled"]

  /** The label a status is stored under. */
  function Label(s: MeetingStatus): (r: string)
    ensures r in StatusLabels
  {
    match s
    case Upcoming => "upcoming"
    case Active => "active"
    case Completed => "completed"
    case Processing => "processing"
    case Cancelled => "cancelled"
  }

  /** Reading a stored label back: only the five labels are statuses. */
  function ParseLabel(text: string): (r: Option<MeetingStatus>)
    ensures r.Some? <==> text in StatusLabels
    ensures r.Some? ==> Label(r.value) == text
  {
    if text == "upcoming" then Some(Upcoming)
    else if text == "active" then Some(Active)
    else if text == "completed" then Some(Completed)
    else if text == "processing" then Some(Processing)
    else if text == "cancelled" then Some(Cancelled)
    else None
  }

  /** Every status survives the trip to its label and back, so the five labels are distinct. */
  lemma LabelRoundTrip(s: MeetingStatus)
    ensures ParseLabel(Label(s)) == Some(s)
  {
  }

  /**
   * One row of `meetings`. `name`, `userId`, `agentId`, `status`, `createdAt` and `updatedAt`
   * are NOT NULL; the two instants, the two URLs and the summary are nullable.
   */
  datatype Meeting = Meeting(
    id: string,
    name: string,
    userId: string,
    agentId: string,
    status: MeetingStatus,
    startedAt: Option<Timestamp>,
    endedAt: Option<Timestamp>,
    transcriptUrl: Option<string>,
    recordingUrl: Option<string>,
    summary: Option<string>,
    createdAt: Timestamp,
    updatedAt: Timestamp)

  /** The columns an insert may supply; the others are left to their defaults. */
  datatype MeetingValues = MeetingValues(
    id: Option<string>,
    name: string,
    userId: string,
    agentId: string,
    status: Option<MeetingStatus>)

  /** The row an insert creates: `generatedId` stands for the fresh value of the id default,
      `now` for `defaultNow()`. */
  function NewMeeting(values: MeetingValues, generatedId: string, now: Timestamp): (m: Meeting)
    ensures m.id == values.id.GetOr(generatedId)
    ensures m.name == values.name && m.userId == values.userId && m.agentId == values.agentId
    ensures values.status.None? ==> m.status == Upcoming
    ensures values.status.Some? ==> m.status == values.status.value
    ensures m.startedAt == None && m.endedAt == None
    ensures m.transcriptUrl == None && m.recordingUrl == None && m.summary == None
    ensures m.createdAt == now && m.updatedAt == now
  {
    Meeting(values.id.GetOr(generatedId), values.name, values.userId, values.agentId,
            values.status.GetOr(Upcoming), None, None, None, None, None, now, now)
  }

  /** The lifecycle order: upcoming, then active, then processing, then completed;
      cancelled can follow upcoming or active. `Advances(a, b)` when `b` is `a` or comes later. */
  predicate Advances(from: MeetingStatus, to: MeetingStatus) {
    from == to ||
    match from
    case Upcoming => true
    case Active => to == Processing || to == Completed || to == Cancelled
    case Processing => to == Completed
    case Completed => false
    case Cancelled => false
  }

  /** The primary key of `meetings`. */
  function MeetingKey(m: Meeting): string { m.id }

  /** The meetings that reference an agent. */
  function ForAgent(agentId: string): Meeting -> bool {
    (m: Meeting) => m.agentId == agentId
  }

  /** The meetings that do not reference an agent. */
  function NotForAgent(agentId: string): Meeting -> bool {
    (m: Meeting) => m.agentId != agentId
  }

  /** The meetings that do not belong to a user. */
  function NotForUser(userId: string): Meeting -> bool {
    (m: Meeting) => m.userId != userId
  }

  /** `ON DELETE CASCADE` on `agent_id`: deleting an agent deletes its meetings, and only those. */
  function DeleteAgentCascade(rows: seq<Meeting>, agentId: string): (r: seq<Meeting>)
    ensures forall k :: 0 <= k < |r| ==> r[k] in rows && r[k].agentId != agentId
    ensures forall i :: 0 <= i < |rows| && rows[i].agentId != agentId ==> rows[i] in r
    ensures Sql.UniqueBy(rows, MeetingKey) ==> Sql.UniqueBy(r, MeetingKey)
  {
    Sql.WhereKeepsUnique(rows, NotForAgent(agentId), MeetingKey);
    Sql.Where(rows, NotForAgent(agentId))
  }

  /** The cascade removes exactly as many meetings as reference the agent. */
  lemma CascadeRemovesAgentMeetings(rows: seq<Meeting>, agentId: string)
    ensures |DeleteAgentCascade(rows, agentId)| == |rows| - |Sql.Where(rows, ForAgent(agentId))|
  {
    Sql.WhereComplement(rows, ForAgent(agentId), NotForAgent(agentId));
  }

  /** `ON DELETE CASCADE` on `user_id`: deleting a user deletes the meetings they own, and only those. */
  function DeleteUserCascade(rows: seq<Meeting>, userId: string): (r: seq<Meeting>)
    ensures forall k :: 0 <= k < |r| ==> r[k] in rows && r[k].userId != userId
    ensures forall i :: 0 <= i < |rows| && rows[i].userId != userId ==> rows[i] in r
    ensures Sql.UniqueBy(rows, MeetingKey) ==> Sql.UniqueBy(r, MeetingKey)
  {
    Sql.WhereKeepsUnique(rows, NotForUser(userId), MeetingKey);
    Sql.Where(rows, NotForUser(userId))
  }
}
