/**
 * The meetings procedures: the transcript with its speakers resolved, the owner-scoped
 * `remove` and `update`, and the `getOne` / `getMany` queries joined with each meeting's agent.
 * Every procedure is scoped to the signed-in caller, passed as `caller`.
 */
module MeetingsRouter {
  import opened Wrappers
  import opened MeetingSchema
  import opened Database
  import opened Avatar
  import opened Rpc
  import Sql
  import Text
  import Paging
  import MeetingInput

  const MeetingNotFound := "Meeting not found"

  // ---------------------------------------------------------------- owner-scoped rows

  /** `where(and(eq(meetings.id, id), eq(meetings.userId, caller)))`. */
  function OwnedBy(id: string, caller: string): Meeting -> bool {
    (m: Meeting) => m.id == id && m.userId == caller
  }

  /** Its negation: the rows an owner-scoped delete keeps. */
  function NotOwnedBy(id: string, caller: string): Meeting -> bool {
    (m: Meeting) => !(m.id == id && m.userId == caller)
  }

  /** The first of the caller's meetings with this id. The agents router has the same lookup
      over its own table; the two row types share no common type, so each router keeps its own. */
  function FindOwned(rows: seq<Meeting>, id: string, caller: string): (r: Option<nat>)
    ensures r.Some? ==> r.value < |rows| && rows[r.value].id == id && rows[r.value].userId == caller
    ensures r.None? <==> forall j :: 0 <= j < |rows| ==> !(rows[j].id == id && rows[j].userId == caller)
  {
    Sql.FirstIndex(rows, OwnedBy(id, caller))
  }

  // ---------------------------------------------------------------- transcript

  datatype TranscriptKind = Word | Sentence | Noise | UnknownKind

  /** One line of the stored JSONL transcript. */
  datatype TranscriptItem = TranscriptItem(speakerId: string, text: string, startTs: int, stopTs: int, kind: TranscriptKind)

  /** Who spoke a line, as shown beside it; the unknown speaker has no id. */
  datatype Speaker = Speaker(id: Option<string>, name: string, image: Image)

  /** A transcript line with its speaker attached. */
  datatype TranscriptEntry = TranscriptEntry(item: TranscriptItem, user: Speaker)

  /** A user speaks with their stored image, or else the initials avatar of their name. */
  function UserSpeaker(u: User): (s: Speaker)
    ensures s.id == Some(u.id) && s.name == u.name
    ensures u.image.Some? ==> s.image == StoredImage(u.image.value)
    ensures u.image.None? ==> s.image == Generated(u.name, Initials)
  {
    Speaker(Some(u.id), u.name, match u.image case Some(url) => StoredImage(url) case None => Generated(u.name, Initials))
  }

  /** An agent speaks with the bot avatar of its name. */
  function AgentSpeaker(a: Agent): (s: Speaker)
    ensures s.id == Some(a.id) && s.name == a.name
    ensures s.image == Generated(a.name, BotttsNeutral)
  {
    Speaker(Some(a.id), a.name, Generated(a.name, BotttsNeutral))
  }

  /** The fallback for a speaker id that is neither a user nor an agent. */
  const UnknownSpeaker := Speaker(None, "Unknown", Generated("Unknown", Initials))

  /** `s` is the speaker of some user whose id is in `ids`. */
  ghost predicate IsUserSpeakerAmong(s: Speaker, users: seq<User>, ids: set<string>) {
    exists j :: 0 <= j < |users| && users[j].id in ids && s == UserSpeaker(users[j])
  }

  /** `s` is the speaker of some agent whose id is in `ids`. */
  ghost predicate IsAgentSpeakerAmong(s: Speaker, agents: seq<Agent>, ids: set<string>) {
    exists j :: 0 <= j < |agents| && agents[j].id in ids && s == AgentSpeaker(agents[j])
  }

  /** The first `n` speakers are user speakers, the rest agent speakers. */
  ghost predicate UsersThenAgents(r: seq<Speaker>, n: int, users: seq<User>, agents: seq<Agent>, ids: set<string>) {
    && 0 <= n <= |r|
    && (forall k :: 0 <= k < n ==> IsUserSpeakerAmong(r[k], users, ids))
    && (forall k :: n <= k < |r| ==> IsAgentSpeakerAmong(r[k], agents, ids))
  }

  /** The users whose id is among `ids`, in table order, as speakers. */
  function UserSpeakers(users: seq<User>, ids: set<string>): (r: seq<Speaker>)
    ensures forall k :: 0 <= k < |r| ==> IsUserSpeakerAmong(r[k], users, ids)
    ensures forall j :: 0 <= j < |users| && users[j].id in ids ==> UserSpeaker(users[j]) in r
  {
    if users == [] then []
    else
      var head := if users[0].id in ids then [UserSpeaker(users[0])] else [];
      var rest := UserSpeakers(users[1..], ids);
      UserSpeakersCons(users, ids, head, rest);
      head + rest
  }

  lemma UserSpeakersCons(users: seq<User>, ids: set<string>, head: seq<Speaker>, rest: seq<Speaker>)
    requires users != []
    requires head == if users[0].id in ids then [UserSpeaker(users[0])] else []
    requires forall k :: 0 <= k < |rest| ==> IsUserSpeakerAmong(rest[k], users[1..], ids)
    requires forall j :: 0 <= j < |users[1..]| && users[1..][j].id in ids ==> UserSpeaker(users[1..][j]) in rest
    ensures forall k :: 0 <= k < |head + rest| ==> IsUserSpeakerAmong((head + rest)[k], users, ids)
    ensures forall j :: 0 <= j < |users| && users[j].id in ids ==> UserSpeaker(users[j]) in head + rest
  {
    forall k | 0 <= k < |head + rest| ensures IsUserSpeakerAmong((head + rest)[k], users, ids) {
      if k >= |head| {
        assert (head + rest)[k] == rest[k - |head|];
        var j :| 0 <= j < |users[1..]| && users[1..][j].id in ids && rest[k - |head|] == UserSpeaker(users[1..][j]);
        assert users[j + 1] == users[1..][j];
      }
    }
    forall j | 0 <= j < |users| && users[j].id in ids ensures UserSpeaker(users[j]) in head + rest {
      if j > 0 {
        assert users[1..][j - 1] == users[j];
      }
    }
  }

  /** The agents whose id is among `ids`, in table order, as speakers. */
  function AgentSpeakers(agents: seq<Agent>, ids: set<string>): (r: seq<Speaker>)
    ensures forall k :: 0 <= k < |r| ==> IsAgentSpeakerAmong(r[k], agents, ids)
    ensures forall j :: 0 <= j < |agents| && agents[j].id in ids ==> AgentSpeaker(agents[j]) in r
  {
    if agents == [] then []
    else
      var head := if agents[0].id in ids then [AgentSpeaker(agents[0])] else [];
      var rest := AgentSpeakers(agents[1..], ids);
      AgentSpeakersCons(agents, ids, head, rest);
      head + rest
  }

  lemma AgentSpeakersCons(agents: seq<Agent>, ids: set<string>, head: seq<Speaker>, rest: seq<Speaker>)
    requires agents != []
    requires head == if agents[0].id in ids then [AgentSpeaker(agents[0])] else []
    requires forall k :: 0 <= k < |rest| ==> IsAgentSpeakerAmong(rest[k], agents[1..], ids)
    requires forall j :: 0 <= j < |agents[1..]| && agents[1..][j].id in ids ==> AgentSpeaker(agents[1..][j]) in rest
    ensures forall k :: 0 <= k < |head + rest| ==> IsAgentSpeakerAmong((head + rest)[k], agents, ids)
    ensures forall j :: 0 <= j < |agents| && agents[j].id in ids ==> AgentSpeaker(agents[j]) in head + rest
  {
    forall k | 0 <= k < |head + rest| ensures IsAgentSpeakerAmong((head + rest)[k], agents, ids) {
      if k >= |head| {
        assert (head + rest)[k] == rest[k - |head|];
        var j :| 0 <= j < |agents[1..]| && agents[1..][j].id in ids && rest[k - |head|] == AgentSpeaker(agents[1..][j]);
        assert agents[j + 1] == agents[1..][j];
      }
    }
    forall j | 0 <= j < |agents| && agents[j].id in ids ensures AgentSpeaker(agents[j]) in head + rest {
      if j > 0 {
        assert agents[1..][j - 1] == agents[j];
      }
    }
  }

  /** `[...new Set(ids)]`, as the set it is used as. */
  function Distinct(ids: seq<string>): (r: set<string>)
    ensures forall id :: id in r <==> id in ids
  {
    set id | id in ids
  }

  /** `getSpeakersByIds`: the ids looked up as a set; first the speakers of the users with
      one of the ids, then those of the agents with one; every such user and agent is there. */
  function SpeakersByIds(ids: seq<string>, users: seq<User>, agents: seq<Agent>): (r: seq<Speaker>)
    ensures exists n :: UsersThenAgents(r, n, users, agents, Distinct(ids))
    ensures forall j :: 0 <= j < |users| && users[j].id in ids ==> UserSpeaker(users[j]) in r
    ensures forall j :: 0 <= j < |agents| && agents[j].id in ids ==> AgentSpeaker(agents[j]) in r
  {
    var distinct := Distinct(ids);
    var us := UserSpeakers(users, distinct);
    var bs := AgentSpeakers(agents, distinct);
    assert forall k :: |us| <= k < |us| + |bs| ==> (us + bs)[k] == bs[k - |us|];
    assert UsersThenAgents(us + bs, |us|, users, agents, distinct);
    us + bs
  }

  /** `speakers.find((s) => s.id === id)`. */
  function FindSpeaker(speakers: seq<Speaker>, id: string): (r: Option<Speaker>)
    ensures r.Some? ==> r.value in speakers && r.value.id == Some(id)
    ensures r.None? <==> forall k :: 0 <= k < |speakers| ==> speakers[k].id != Some(id)
  {
    if speakers == [] then None
    else if speakers[0].id == Some(id) then Some(speakers[0])
    else FindSpeaker(speakers[1..], id)
  }

  /** A transcript line with the first matching speaker, or the unknown speaker. */
  function Enrich(item: TranscriptItem, speakers: seq<Speaker>): (e: TranscriptEntry)
    ensures e.item == item
  {
    TranscriptEntry(item, FindSpeaker(speakers, item.speakerId).GetOr(UnknownSpeaker))
  }

  /** Who a speaker id resolves to: the first user with that id, else the first agent with
      that id, else nobody known. */
  function ResolveSpeaker(id: string, users: seq<User>, agents: seq<Agent>): Speaker {
    match FindUser(users, id)
    case Some(u) => UserSpeaker(users[u])
    case None =>
      match FindAgent(agents, id)
      case Some(a) => AgentSpeaker(agents[a])
      case None => UnknownSpeaker
  }

  /** `getTranscript`: NOT_FOUND unless the caller owns the meeting; `[]` without a transcript
      URL, and `[]` when fetching or parsing the transcript failed (`fetched` is absent);
      otherwise every line, in order, with its speaker. */
  function GetTranscript(meetings: seq<Meeting>, users: seq<User>, agents: seq<Agent>, caller: string,
                         id: string, fetched: Option<seq<TranscriptItem>>): (r: Result<seq<TranscriptEntry>, Error>)
    ensures r.Err? <==> FindOwned(meetings, id, caller).None?
    ensures r.Err? ==> r.error == NotFound(MeetingNotFound)
    ensures r.Ok? && (!Truthy(meetings[FindOwned(meetings, id, caller).value].transcriptUrl) || fetched.None?) ==>
              r.value == []
    ensures r.Ok? && Truthy(meetings[FindOwned(meetings, id, caller).value].transcriptUrl) && fetched.Some? ==>
              |r.value| == |fetched.value| &&
              forall k :: 0 <= k < |r.value| ==> r.value[k].item == fetched.value[k]
  {
    match FindOwned(meetings, id, caller)
    case None => Err(NotFound(MeetingNotFound))
    case Some(i) =>
      if !Truthy(meetings[i].transcriptUrl) then Ok([])
      else
        var items := fetched.GetOr([]);
        var speakers := SpeakersByIds(seq(|items|, k requires 0 <= k < |items| => items[k].speakerId), users, agents);
        Ok(seq(|items|, k requires 0 <= k < |items| => Enrich(items[k], speakers)))
  }

  lemma {:induction false} FindSpeakerAppend(a: seq<Speaker>, b: seq<Speaker>, id: string)
    ensures FindSpeaker(a + b, id) == if FindSpeaker(a, id).Some? then FindSpeaker(a, id) else FindSpeaker(b, id)
  {
    if a == [] {
      assert a + b == b;
    } else {
      assert (a + b)[1..] == a[1..] + b;
      FindSpeakerAppend(a[1..], b, id);
    }
  }

  /** Among the user speakers, an id in the looked-up set finds the first user with that id. */
  lemma {:induction false} UserSpeakersFind(users: seq<User>, ids: set<string>, id: string)
    requires id in ids
    ensures FindSpeaker(UserSpeakers(users, ids), id) ==
            match FindUser(users, id) case Some(u) => Some(UserSpeaker(users[u])) case None => None
  {
    if users != [] {
      var rest := UserSpeakers(users[1..], ids);
      var head := if users[0].id in ids then [UserSpeaker(users[0])] else [];
      assert UserSpeakers(users, ids) == head + rest;
      FindSpeakerAppend(head, rest, id);
      UserSpeakersFind(users[1..], ids, id);
      if users[0].id != id {
        FindUserInTail(users, id);
        match FindUser(users[1..], id)
        case Some(u) => assert users[u + 1] == users[1..][u];
        case None =>
      }
    }
  }

  /** Among the agent speakers, an id in the looked-up set finds the first agent with that id. */
  lemma {:induction false} AgentSpeakersFind(agents: seq<Agent>, ids: set<string>, id: string)
    requires id in ids
    ensures FindSpeaker(AgentSpeakers(agents, ids), id) ==
            match FindAgent(agents, id) case Some(a) => Some(AgentSpeaker(agents[a])) case None => None
  {
    if agents != [] {
      var rest := AgentSpeakers(agents[1..], ids);
      var head := if agents[0].id in ids then [AgentSpeaker(agents[0])] else [];
      assert AgentSpeakers(agents, ids) == head + rest;
      FindSpeakerAppend(head, rest, id);
      AgentSpeakersFind(agents[1..], ids, id);
      if agents[0].id != id {
        FindAgentInTail(agents, id);
        match FindAgent(agents[1..], id)
        case Some(a) => assert agents[a + 1] == agents[1..][a];
        case None =>
      }
    }
  }

  /** The speaker attached to a line is the one its id resolves to: a user before an agent,
      and the unknown speaker when neither has that id. */
  lemma EnrichResolvesSpeaker(item: TranscriptItem, ids: seq<string>, users: seq<User>, agents: seq<Agent>)
    requires item.speakerId in ids
    ensures Enrich(item, SpeakersByIds(ids, users, agents)).user == ResolveSpeaker(item.speakerId, users, agents)
  {
    var distinct := Distinct(ids);
    FindSpeakerAppend(UserSpeakers(users, distinct), AgentSpeakers(agents, distinct), item.speakerId);
    UserSpeakersFind(users, distinct, item.speakerId);
    AgentSpeakersFind(agents, distinct, item.speakerId);
  }

  /** Each line of a returned transcript carries the speaker its id resolves to. */
  lemma TranscriptSpeakersResolved(meetings: seq<Meeting>, users: seq<User>, agents: seq<Agent>, caller: string,
                                   id: string, fetched: Option<seq<TranscriptItem>>, k: nat)
    requires GetTranscript(meetings, users, agents, caller, id, fetched).Ok?
    requires k < |GetTranscript(meetings, users, agents, caller, id, fetched).value|
    ensures var e := GetTranscript(meetings, users, agents, caller, id, fetched).value[k];
            e.user == ResolveSpeaker(e.item.speakerId, users, agents)
  {
    var items := fetched.GetOr([]);
    var ids := seq(|items|, j requires 0 <= j < |items| => items[j].speakerId);
    assert ids[k] == items[k].speakerId;
    EnrichResolvesSpeaker(items[k], ids, users, agents);
  }

  // ---------------------------------------------------------------- remove and update

  /** `update(meetings).set(input).where(id, owner)`: the matched rows take the new name and agent.
      Shaped like `AgentsRouter.Revise`, but over meeting rows and their `agentId` column. */
  function Retarget(rows: seq<Meeting>, id: string, caller: string, name: string, agentId: string): (r: seq<Meeting>)
    ensures |r| == |rows|
    ensures forall j :: 0 <= j < |rows| ==>
      r[j] == if rows[j].id == id && rows[j].userId == caller then rows[j].(name := name, agentId := agentId) else rows[j]
  {
    seq(|rows|, j requires 0 <= j < |rows| =>
      if rows[j].id == id && rows[j].userId == caller then rows[j].(name := name, agentId := agentId) else rows[j])
  }

  /** Retargeting meetings at an existing agent keeps the primary and foreign keys. */
  lemma RetargetKeepsConstraints(rows: seq<Meeting>, id: string, caller: string, name: string, agentId: string,
                                 agents: seq<Agent>, users: seq<User>)
    requires FindAgent(agents, agentId).Some?
    ensures Sql.UniqueBy(rows, MeetingKey) ==> Sql.UniqueBy(Retarget(rows, id, caller, name, agentId), MeetingKey)
    ensures ReferencesIntact(rows, agents, users) ==> ReferencesIntact(Retarget(rows, id, caller, name, agentId), agents, users)
  {
    var after := Retarget(rows, id, caller, name, agentId);
    if Sql.UniqueBy(rows, MeetingKey) {
      forall i, j | 0 <= i < j < |after| ensures MeetingKey(after[i]) != MeetingKey(after[j]) {
        assert MeetingKey(rows[i]) != MeetingKey(rows[j]);
      }
    }
  }

  /** Deleting meetings keeps the foreign keys of the rest. */
  lemma DeleteKeepsReferences(rows: seq<Meeting>, p: Meeting -> bool, agents: seq<Agent>, users: seq<User>)
    ensures ReferencesIntact(rows, agents, users) ==> ReferencesIntact(Sql.Where(rows, p), agents, users)
  {
    var after := Sql.Where(rows, p);
    if ReferencesIntact(rows, agents, users) {
      forall k | 0 <= k < |after|
        ensures FindAgent(agents, after[k].agentId).Some? && FindUser(users, after[k].userId).Some?
      {
        assert after[k] in rows;
        var j :| 0 <= j < |rows| && rows[j] == after[k];
      }
    }
  }

  /** `remove`: deletes the caller's meeting with this id and returns it; NOT_FOUND, with
      nothing deleted, when the caller has no such meeting. */
  method Remove(db: Db, caller: string, id: string) returns (r: Result<Meeting, Error>)
    modifies db
    ensures match FindOwned(old(db.meetings), id, caller)
            case None => r == Err(NotFound(MeetingNotFound)) && db.meetings == old(db.meetings)
            case Some(i) => r == Ok(old(db.meetings)[i]) && db.meetings == Sql.Where(old(db.meetings), NotOwnedBy(id, caller))
    ensures db.agents == old(db.agents) && db.users == old(db.users)
    ensures old(db.Valid()) ==> db.Valid()
    ensures old(db.Intact()) ==> db.Intact()
  {
    var found := FindOwned(db.meetings, id, caller);
    if found.None? {
      return Err(NotFound(MeetingNotFound));
    }
    var removed := db.meetings[found.value];
    Sql.WhereKeepsUnique(db.meetings, NotOwnedBy(id, caller), MeetingKey);
    DeleteKeepsReferences(db.meetings, NotOwnedBy(id, caller), db.agents, db.users);
    db.meetings := Sql.Where(db.meetings, NotOwnedBy(id, caller));
    r := Ok(removed);
  }

  /** With ids unique, `remove` takes out exactly the one row it returns; every other row stays, in order. */
  lemma RemoveTakesOnlyThatRow(rows: seq<Meeting>, id: string, caller: string)
    requires Sql.UniqueBy(rows, MeetingKey)
    requires FindOwned(rows, id, caller).Some?
    ensures var i := FindOwned(rows, id, caller).value;
            Sql.Where(rows, NotOwnedBy(id, caller)) == rows[..i] + rows[i + 1..]
  {
    var i := FindOwned(rows, id, caller).value;
    forall j | 0 <= j < |rows| && j != i ensures NotOwnedBy(id, caller)(rows[j]) {
      if j < i {
        assert MeetingKey(rows[j]) != MeetingKey(rows[i]);
      } else {
        assert MeetingKey(rows[i]) != MeetingKey(rows[j]);
      }
    }
    Sql.WhereDropsOne(rows, NotOwnedBy(id, caller), i);
  }

  /** `update`: the input is validated (the name trimmed); the caller's meeting with that id
      takes the new name and agent and is returned; NOT_FOUND when the caller has no such
      meeting; a new agent id that names no agent breaks the foreign key and the statement
      fails. On every failure nothing changes. `updatedAt` is not touched. */
  method Update(db: Db, caller: string, name: string, agentId: string, id: string) returns (r: Result<Meeting, Error>)
    modifies db
    ensures MeetingInput.ParseUpdate(name, agentId, id).Err? ==>
              r == Err(BadRequest(MeetingInput.ParseUpdate(name, agentId, id).error)) && db.meetings == old(db.meetings)
    ensures MeetingInput.ParseUpdate(name, agentId, id).Ok? ==>
              var input := MeetingInput.ParseUpdate(name, agentId, id).value;
              match FindOwned(old(db.meetings), input.id, caller)
              case None => r == Err(NotFound(MeetingNotFound)) && db.meetings == old(db.meetings)
              case Some(i) =>
                if FindAgent(old(db.agents), input.agentId).None? then
                  r == Err(InternalServerError) && db.meetings == old(db.meetings)
                else
                  && db.meetings == Retarget(old(db.meetings), input.id, caller, input.name, input.agentId)
                  && r == Ok(db.meetings[i])
    ensures db.agents == old(db.agents) && db.users == old(db.users)
    ensures old(db.Valid()) ==> db.Valid()
    ensures old(db.Intact()) ==> db.Intact()
  {
    var parsed := MeetingInput.ParseUpdate(name, agentId, id);
    if parsed.Err? {
      return Err(BadRequest(parsed.error));
    }
    var input := parsed.value;
    var found := FindOwned(db.meetings, input.id, caller);
    if found.None? {
      return Err(NotFound(MeetingNotFound));
    }
    if FindAgent(db.agents, input.agentId).None? {
      return Err(InternalServerError);
    }
    RetargetKeepsConstraints(db.meetings, input.id, caller, input.name, input.agentId, db.agents, db.users);
    db.meetings := Retarget(db.meetings, input.id, caller, input.name, input.agentId);
    r := Ok(db.meetings[found.value]);
  }

  /** With ids unique, `update` changes the one row it returns and no other. */
  lemma UpdateChangesOnlyThatRow(rows: seq<Meeting>, id: string, caller: string, name: string, agentId: string)
    requires Sql.UniqueBy(rows, MeetingKey)
    requires FindOwned(rows, id, caller).Some?
    ensures var i := FindOwned(rows, id, caller).value;
            var after := Retarget(rows, id, caller, name, agentId);
            && after[i] == rows[i].(name := name, agentId := agentId)
            && forall j :: 0 <= j < |rows| && j != i ==> after[j] == rows[j]
  {
    var i := FindOwned(rows, id, caller).value;
    forall j | 0 <= j < |rows| && j != i ensures rows[j].id != id {
      if j < i {
        assert MeetingKey(rows[j]) != MeetingKey(rows[i]);
      } else {
        assert MeetingKey(rows[i]) != MeetingKey(rows[j]);
      }
    }
  }

  // ---------------------------------------------------------------- getOne and getMany

  /** A meeting joined with its agent, and its length when it has both started and ended. */
  datatype MeetingItem = MeetingItem(meeting: Meeting, agent: Agent, duration: Option<int>)

  /** `EXTRACT(EPOCH FROM (ended_at - started_at))`: null unless both ends are recorded. */
  function Duration(m: Meeting): (d: Option<int>)
    ensures d.Some? <==> m.startedAt.Some? && m.endedAt.Some?
    ensures d.Some? ==> m.startedAt.value + d.value == m.endedAt.value
  {
    if m.startedAt.Some? && m.endedAt.Some? then Some(m.endedAt.value - m.startedAt.value) else None
  }

  /** The row of `meetings INNER JOIN agents ON meetings.agent_id = agents.id` for a meeting. */
  function Joined(m: Meeting, agents: seq<Agent>): (item: MeetingItem)
    requires FindAgent(agents, m.agentId).Some?
    ensures item.meeting == m && item.agent in agents && item.agent.id == m.agentId
    ensures item.duration == Duration(m)
  {
    MeetingItem(m, agents[FindAgent(agents, m.agentId).value], Duration(m))
  }

  /** The caller's meeting with this id that has an agent to join with. */
  function OwnedJoinable(id: string, caller: string, agents: seq<Agent>): Meeting -> bool {
    (m: Meeting) => m.id == id && m.userId == caller && FindAgent(agents, m.agentId).Some?
  }

  /** `getOne`: the caller's meeting with this id, joined with its agent; NOT_FOUND when the
      caller has no such meeting or its agent is gone. */
  function GetOne(meetings: seq<Meeting>, agents: seq<Agent>, caller: string, id: string): (r: Result<MeetingItem, Error>)
    ensures r.Ok? ==> r.value.meeting in meetings && r.value.meeting.id == id && r.value.meeting.userId == caller
    ensures r.Ok? ==> r.value.agent in agents && r.value.agent.id == r.value.meeting.agentId
    ensures r.Ok? ==> r.value.duration == Duration(r.value.meeting)
    ensures r.Err? <==> forall j :: 0 <= j < |meetings| ==>
              !(meetings[j].id == id && meetings[j].userId == caller && FindAgent(agents, meetings[j].agentId).Some?)
    ensures r.Err? ==> r.error == NotFound(MeetingNotFound)
  {
    match Sql.FirstIndex(meetings, OwnedJoinable(id, caller, agents))
    case None => Err(NotFound(MeetingNotFound))
    case Some(i) => Ok(Joined(meetings[i], agents))
  }

  /** The optional filters of `getMany`, once the input has passed its schema. */
  datatype MeetingFilter = MeetingFilter(search: Option<string>, agentId: Option<string>, status: Option<MeetingStatus>)

  /** The filter fields of `getMany`'s input as sent: `status` is any text until checked. */
  datatype MeetingQuery = MeetingQuery(search: Option<string>, agentId: Option<string>, status: Option<string>)

  /** How zod lists an enum's options in a message: each in single quotes, joined by ` | `. */
  function JoinOptions(options: seq<string>): string {
    if options == [] then ""
    else if |options| == 1 then "'" + options[0] + "'"
    else "'" + options[0] + "' | " + JoinOptions(options[1..])
  }

  /** The message of `z.enum([...])` for a value outside the five labels. */
  function StatusIssue(received: string): string {
    "Invalid enum value. Expected " + JoinOptions(StatusLabels) + ", received '" + received + "'"
  }

  /** The filter fields of `getMany`'s input schema: `search` and `agentId` are any nullish
      text, and `status`, when given, must be one of the five labels. */
  function ParseFilter(q: MeetingQuery): (r: Result<MeetingFilter, seq<string>>)
    ensures r.Ok? <==> q.status.None? || ParseLabel(q.status.value).Some?
    ensures r.Ok? ==> r.value.search == q.search && r.value.agentId == q.agentId
    ensures r.Ok? ==> (r.value.status.Some? <==> q.status.Some?)
    ensures r.Ok? && q.status.Some? ==> Label(r.value.status.value) == q.status.value
    ensures r.Err? ==> r.error == [StatusIssue(q.status.value)]
  {
    match q.status
    case None => Ok(MeetingFilter(q.search, q.agentId, None))
    case Some(text) =>
      match ParseLabel(text)
      case None => Err([StatusIssue(text)])
      case Some(status) => Ok(MeetingFilter(q.search, q.agentId, Some(status)))
  }

  /** The input that names a filter: its status written as its label. Every filter has one,
      and it parses back to the filter. */
  function QueryOf(f: MeetingFilter): (q: MeetingQuery)
    ensures ParseFilter(q) == Ok(f)
  {
    match f.status
    case None => MeetingQuery(f.search, f.agentId, None)
    case Some(status) =>
      LabelRoundTrip(status);
      MeetingQuery(f.search, f.agentId, Some(Label(status)))
  }

  /** Every input that passes the filter schema is the input of the filter it parses to. */
  lemma ParsedQueryRoundTrip(q: MeetingQuery)
    requires ParseFilter(q).Ok?
    ensures QueryOf(ParseFilter(q).value) == q
  {
  }

  /** The issues a field's parse reports: none when it passes. */
  function Issues<T>(r: Result<T, seq<string>>): (issues: seq<string>)
    ensures issues == [] <==> r.Ok? || r.error == []
  {
    if r.Ok? then [] else r.error
  }

  /** The `where` of `getMany` and of its count: the caller's meetings, then each filter that is set. */
  predicate Matches(m: Meeting, caller: string, f: MeetingFilter) {
    && m.userId == caller
    && (Truthy(f.search) ==> Text.ContainsIgnoringCase(m.name, f.search.value))
    && (f.status.Some? ==> m.status == f.status.value)
    && (Truthy(f.agentId) ==> m.agentId == f.agentId.value)
  }

  function ListedBy(agents: seq<Agent>, caller: string, f: MeetingFilter): Meeting -> bool {
    (m: Meeting) => Matches(m, caller, f) && FindAgent(agents, m.agentId).Some?
  }

  /** The meetings `getMany` counts: those matching the filter that join with an agent. */
  function Listed(meetings: seq<Meeting>, agents: seq<Agent>, caller: string, f: MeetingFilter): (r: seq<Meeting>)
    ensures forall k :: 0 <= k < |r| ==> r[k] in meetings && Matches(r[k], caller, f) && FindAgent(agents, r[k].agentId).Some?
    ensures forall i :: 0 <= i < |meetings| && Matches(meetings[i], caller, f) && FindAgent(agents, meetings[i].agentId).Some? ==>
              meetings[i] in r
  {
    Sql.Where(meetings, ListedBy(agents, caller, f))
  }

  function MeetingOrder(m: Meeting): Sql.OrderKey {
    Sql.OrderKey(m.createdAt, m.id)
  }

  /** The listed meetings newest first (`ORDER BY created_at DESC, id DESC`). */
  function Ordered(meetings: seq<Meeting>, agents: seq<Agent>, caller: string, f: MeetingFilter): (r: seq<Meeting>)
    ensures forall k :: 0 <= k < |r| ==> FindAgent(agents, r[k].agentId).Some?
  {
    var listed := Listed(meetings, agents, caller, f);
    var r := Sql.OrderNewestFirst(listed, MeetingOrder);
    ReorderedStillListed(r, listed, agents, caller, f);
    r
  }

  /** Reordering rows that all pass the filter and join with an agent keeps them so. */
  lemma ReorderedStillListed(r: seq<Meeting>, listed: seq<Meeting>, agents: seq<Agent>, caller: string, f: MeetingFilter)
    requires multiset(r) == multiset(listed)
    requires forall k :: 0 <= k < |listed| ==> Matches(listed[k], caller, f) && FindAgent(agents, listed[k].agentId).Some?
    ensures forall k :: 0 <= k < |r| ==> Matches(r[k], caller, f) && FindAgent(agents, r[k].agentId).Some?
  {
    forall k | 0 <= k < |r|
      ensures Matches(r[k], caller, f) && FindAgent(agents, r[k].agentId).Some?
    {
      assert r[k] in multiset(listed);
      var j :| 0 <= j < |listed| && listed[j] == r[k];
    }
  }

  /** The ordered list is the listed meetings, each as often as there, newest first; so it
      holds only meetings that pass the filter. */
  lemma OrderedIsSortedListing(meetings: seq<Meeting>, agents: seq<Agent>, caller: string, f: MeetingFilter)
    ensures var r := Ordered(meetings, agents, caller, f);
            && Sql.SortedNewestFirst(r, MeetingOrder)
            && multiset(r) == multiset(Listed(meetings, agents, caller, f))
            && |r| == |Listed(meetings, agents, caller, f)|
            && forall k :: 0 <= k < |r| ==> Matches(r[k], caller, f)
  {
    var listed := Listed(meetings, agents, caller, f);
    var r := Ordered(meetings, agents, caller, f);
    ReorderedStillListed(r, listed, agents, caller, f);
  }

  /** One page of `getMany`, with the size of the whole filtered list and the number of pages. */
  datatype MeetingPage = MeetingPage(items: seq<MeetingItem>, total: nat, totalPages: nat)

  /** `getMany`: the page of the caller's filtered meetings, newest first, each joined with its
      agent: entry `k` is the meeting at place `(page - 1) * pageSize + k` of the ordered list.
      `total` counts the same filtered set and `totalPages` is `ceil(total / pageSize)`, which
      is 0 for an empty list. The input schema refuses a page size outside [1, 100] and a
      status outside the five labels, reporting every failing field in field order; a page
      below 1 makes the offset negative and the query fails. */
  function GetMany(meetings: seq<Meeting>, agents: seq<Agent>, caller: string, page: Option<int>,
                   pageSize: Option<int>, q: MeetingQuery): (r: Result<MeetingPage, Error>)
    ensures Paging.ParsePaging(page, pageSize).Err? || ParseFilter(q).Err? ==>
              r == Err(BadRequest(Issues(Paging.ParsePaging(page, pageSize)) + Issues(ParseFilter(q))))
    ensures Paging.ParsePaging(page, pageSize).Ok? && ParseFilter(q).Ok? && page.GetOr(Paging.DefaultPage) < 1 ==>
              r == Err(InternalServerError)
    ensures r.Ok? <==>
              Paging.ParsePaging(page, pageSize).Ok? && ParseFilter(q).Ok? && page.GetOr(Paging.DefaultPage) >= 1
    ensures r.Ok? ==>
              r.value == PageFor(meetings, agents, caller, Paging.ParsePaging(page, pageSize).value, ParseFilter(q).value).value
    ensures r.Ok? ==>
              var size := pageSize.GetOr(Paging.DefaultPageSize);
              && r.value.total == |Listed(meetings, agents, caller, ParseFilter(q).value)|
              && r.value.totalPages == Sql.CeilDiv(r.value.total, size)
              && |r.value.items| <= size
    ensures r.Ok? ==>
              forall k :: 0 <= k < |r.value.items| ==>
                var item := r.value.items[k];
                item.agent in agents && item.agent.id == item.meeting.agentId && item.duration == Duration(item.meeting)
  {
    var paging := Paging.ParsePaging(page, pageSize);
    var filter := ParseFilter(q);
    if paging.Err? || filter.Err? then Err(BadRequest(Issues(paging) + Issues(filter)))
    else
      match PageFor(meetings, agents, caller, paging.value, filter.value)
      case None => Err(InternalServerError)
      case Some(result) => Ok(result)
  }

  /** For an input whose filters parse to `f` and a page size the schema accepts, `getMany`
      answers exactly when the page is at least 1, and then with that page of `f`'s listing. */
  lemma GetManyOfFilter(meetings: seq<Meeting>, agents: seq<Agent>, caller: string, page: int,
                        pageSize: int, q: MeetingQuery, f: MeetingFilter)
    requires Paging.MinPageSize <= pageSize <= Paging.MaxPageSize
    requires ParseFilter(q) == Ok(f)
    ensures var r := GetMany(meetings, agents, caller, Some(page), Some(pageSize), q);
            && (r.Ok? <==> page >= 1)
            && (r.Ok? ==> r.value == PageFor(meetings, agents, caller, Paging.PageRequest(page, pageSize), f).value)
  {
    assert Paging.ParsePaging(Some(page), Some(pageSize)).value == Paging.PageRequest(page, pageSize);
  }

  /** The page `req` of the listed meetings, absent when its offset is negative. */
  function PageFor(meetings: seq<Meeting>, agents: seq<Agent>, caller: string, req: Paging.PageRequest,
                   f: MeetingFilter): (r: Option<MeetingPage>)
    requires req.pageSize >= 1
    ensures r.None? <==> req.page < 1
    ensures r.Some? ==>
              && r.value.total == |Listed(meetings, agents, caller, f)|
              && r.value.totalPages == Sql.CeilDiv(r.value.total, req.pageSize)
              && |r.value.items| <= req.pageSize
    ensures r.Some? ==>
              forall k :: 0 <= k < |r.value.items| ==>
                var item := r.value.items[k];
                item.agent in agents && item.agent.id == item.meeting.agentId && item.duration == Duration(item.meeting)
  {
    var ordered := Ordered(meetings, agents, caller, f);
    match Paging.PageOf(ordered, req)
    case None => None
    case Some(rows) =>
      var total := |Listed(meetings, agents, caller, f)|;
      Some(MeetingPage(JoinAll(rows, agents), total, Sql.CeilDiv(total, req.pageSize)))
  }

  /** Entry `k` of page `req` is the meeting at place `(page - 1) * pageSize + k` of the
      ordered list: the page is a window onto the listing, in its order. */
  lemma PageForItemAt(meetings: seq<Meeting>, agents: seq<Agent>, caller: string, req: Paging.PageRequest,
                      f: MeetingFilter, k: nat)
    requires req.pageSize >= 1
    requires PageFor(meetings, agents, caller, req, f).Some?
    requires k < |PageFor(meetings, agents, caller, req, f).value.items|
    ensures 0 <= Paging.Offset(req) + k < |Ordered(meetings, agents, caller, f)|
    ensures PageFor(meetings, agents, caller, req, f).value.items[k].meeting ==
            Ordered(meetings, agents, caller, f)[Paging.Offset(req) + k]
  {
    var ordered := Ordered(meetings, agents, caller, f);
    var rows := Paging.PageOf(ordered, req).value;
    var items := PageFor(meetings, agents, caller, req, f).value.items;
    assert items == JoinAll(rows, agents);
    assert k < |rows|;
    assert items[k].meeting == rows[k];
    assert rows[k] == ordered[Paging.Offset(req) + k];
  }

  /** Each meeting of a page joined with its agent. */
  function JoinAll(rows: seq<Meeting>, agents: seq<Agent>): (r: seq<MeetingItem>)
    requires forall k :: 0 <= k < |rows| ==> FindAgent(agents, rows[k].agentId).Some?
    ensures |r| == |rows|
    ensures forall k :: 0 <= k < |rows| ==>
              r[k].meeting == rows[k] && r[k].agent in agents && r[k].agent.id == rows[k].agentId
              && r[k].duration == Duration(rows[k])
  {
    seq(|rows|, k requires 0 <= k < |rows| => Joined(rows[k], agents))
  }

  /** What a page of `getMany` holds: only the caller's meetings that pass every filter, each
      with its own agent, newest first. */
  lemma GetManyItemsMatch(meetings: seq<Meeting>, agents: seq<Agent>, caller: string, req: Paging.PageRequest,
                          q: MeetingQuery, f: MeetingFilter)
    requires Paging.MinPageSize <= req.pageSize <= Paging.MaxPageSize
    requires ParseFilter(q) == Ok(f)
    requires GetMany(meetings, agents, caller, Some(req.page), Some(req.pageSize), q).Ok?
    ensures var items := GetMany(meetings, agents, caller, Some(req.page), Some(req.pageSize), q).value.items;
            && (forall k :: 0 <= k < |items| ==> Matches(items[k].meeting, caller, f))
            && (forall k, l :: 0 <= k < l < |items| ==>
                  Sql.NewerOrSame(MeetingOrder(items[k].meeting), MeetingOrder(items[l].meeting)))
  {
    GetManyOfFilter(meetings, agents, caller, req.page, req.pageSize, q, f);
    var items := PageFor(meetings, agents, caller, req, f).value.items;
    var ordered := Ordered(meetings, agents, caller, f);
    OrderedIsSortedListing(meetings, agents, caller, f);
    forall k | 0 <= k < |items| ensures Matches(items[k].meeting, caller, f) {
      PageForItemAt(meetings, agents, caller, req, f, k);
    }
    forall k, l | 0 <= k < l < |items|
      ensures Sql.NewerOrSame(MeetingOrder(items[k].meeting), MeetingOrder(items[l].meeting))
    {
      PageForItemAt(meetings, agents, caller, req, f, k);
      PageForItemAt(meetings, agents, caller, req, f, l);
    }
  }

  /** Every meeting the filter lists is on some page between 1 and `totalPages`. */
  lemma EveryListedMeetingOnSomePage(meetings: seq<Meeting>, agents: seq<Agent>, caller: string,
                                     pageSize: int, q: MeetingQuery, f: MeetingFilter, m: Meeting)
    requires Paging.MinPageSize <= pageSize <= Paging.MaxPageSize
    requires ParseFilter(q) == Ok(f)
    requires m in Listed(meetings, agents, caller, f)
    ensures exists page :: 1 <= page <= Sql.CeilDiv(|Listed(meetings, agents, caller, f)|, pageSize) &&
              var r := GetMany(meetings, agents, caller, Some(page), Some(pageSize), q);
              r.Ok? && exists k :: 0 <= k < |r.value.items| && r.value.items[k].meeting == m
  {
    var i := PlaceInOrdered(meetings, agents, caller, f, m);
    Paging.EveryRowOnItsPage(Ordered(meetings, agents, caller, f), pageSize, i);
    OrderedRowOnItsPage(meetings, agents, caller, pageSize, q, f, i);
  }

  /** A listed meeting has a place in the ordered listing, which is as long as the listing. */
  lemma PlaceInOrdered(meetings: seq<Meeting>, agents: seq<Agent>, caller: string, f: MeetingFilter,
                       m: Meeting) returns (i: nat)
    requires m in Listed(meetings, agents, caller, f)
    ensures |Ordered(meetings, agents, caller, f)| == |Listed(meetings, agents, caller, f)|
    ensures i < |Ordered(meetings, agents, caller, f)| && Ordered(meetings, agents, caller, f)[i] == m
  {
    var ordered := Ordered(meetings, agents, caller, f);
    OrderedIsSortedListing(meetings, agents, caller, f);
    assert m in multiset(ordered);
    i :| 0 <= i < |ordered| && ordered[i] == m;
  }

  /** Place `i` of the ordered listing is entry `i % pageSize` of page `i / pageSize + 1`. */
  lemma OrderedRowOnItsPage(meetings: seq<Meeting>, agents: seq<Agent>, caller: string,
                            pageSize: int, q: MeetingQuery, f: MeetingFilter, i: nat)
    requires Paging.MinPageSize <= pageSize <= Paging.MaxPageSize
    requires ParseFilter(q) == Ok(f)
    requires i < |Ordered(meetings, agents, caller, f)|
    ensures var r := GetMany(meetings, agents, caller, Some(i / pageSize + 1), Some(pageSize), q);
            && r.Ok? && i % pageSize < |r.value.items|
            && r.value.items[i % pageSize].meeting == Ordered(meetings, agents, caller, f)[i]
  {
    var ordered := Ordered(meetings, agents, caller, f);
    Paging.EveryRowOnItsPage(ordered, pageSize, i);
    var req := Paging.PageRequest(i / pageSize + 1, pageSize);
    GetManyOfFilter(meetings, agents, caller, req.page, pageSize, q, f);
    assert PageFor(meetings, agents, caller, req, f).value.items == JoinAll(Paging.PageOf(ordered, req).value, agents);
    PageForItemAt(meetings, agents, caller, req, f, i % pageSize);
  }

  /** A page of `getMany` has meetings exactly when its number is between 1 and `totalPages`. */
  lemma MeetingPageNonEmptyIff(meetings: seq<Meeting>, agents: seq<Agent>, caller: string,
                               page: int, pageSize: int, q: MeetingQuery, f: MeetingFilter)
    requires Paging.MinPageSize <= pageSize <= Paging.MaxPageSize
    requires ParseFilter(q) == Ok(f)
    ensures var r := GetMany(meetings, agents, caller, Some(page), Some(pageSize), q);
            (r.Ok? && r.value.items != []) <==>
            1 <= page <= Sql.CeilDiv(|Listed(meetings, agents, caller, f)|, pageSize)
  {
    GetManyOfFilter(meetings, agents, caller, page, pageSize, q, f);
    var ordered := Ordered(meetings, agents, caller, f);
    Paging.PageNonEmptyIff(ordered, Paging.PageRequest(page, pageSize));
  }
}
