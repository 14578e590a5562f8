/**
 * The application database as the core sees it: the `meetings`, `agents` and `user` tables,
 * each a sequence of rows in storage order, held by one object that the handlers update.
 */
module Database {
  import opened Wrappers
  import opened MeetingSchema
  import Sql

  /** A row of `agents` (the columns the core reads). */
  datatype Agent = Agent(
    id: string,
    name: string,
    userId: string,
    instructions: string,
    createdAt: Timestamp)

  /** A row of the authentication `user` table (the columns the core reads). */
  datatype User = User(id: string, name: string, image: Option<string>)

  function AgentKey(a: Agent): string { a.id }
  function UserKey(u: User): string { u.id }

  /** `SELECT * FROM agents WHERE id = $id`, first row. */
  function FindAgent(agents: seq<Agent>, id: string): (r: Option<nat>)
    ensures r.Some? ==> r.value < |agents| && agents[r.value].id == id
    ensures r.None? <==> forall j :: 0 <= j < |agents| ==> agents[j].id != id
  {
    Sql.FirstIndex(agents, (a: Agent) => a.id == id)
  }

  /** `SELECT * FROM user WHERE id = $id`, first row. */
  function FindUser(users: seq<User>, id: string): (r: Option<nat>)
    ensures r.Some? ==> r.value < |users| && users[r.value].id == id
    ensures r.None? <==> forall j :: 0 <= j < |users| ==> users[j].id != id
  {
    Sql.FirstIndex(users, (u: User) => u.id == id)
  }

  /** When the first agent has another id, the lookup is the lookup in the rest, one place on. */
  lemma FindAgentInTail(agents: seq<Agent>, id: string)
    requires agents != [] && agents[0].id != id
    ensures FindAgent(agents, id) ==
            match FindAgent(agents[1..], id) case Some(a) => Some(a + 1) case None => None
  {
  }

  /** When the first user has another id, the lookup is the lookup in the rest, one place on. */
  lemma FindUserInTail(users: seq<User>, id: string)
    requires users != [] && users[0].id != id
    ensures FindUser(users, id) ==
            match FindUser(users[1..], id) case Some(u) => Some(u + 1) case None => None
  {
  }

  /** Every meeting's agent and owner exist (the two foreign keys of `meetings`). */
  ghost predicate ReferencesIntact(meetings: seq<Meeting>, agents: seq<Agent>, users: seq<User>) {
    forall i :: 0 <= i < |meetings| ==>
      FindAgent(agents, meetings[i].agentId).Some? && FindUser(users, meetings[i].userId).Some?
  }

  class Db {
    var meetings: seq<Meeting>
    var agents: seq<Agent>
    var users: seq<User>

    /** Primary keys: no two rows of a table share an id. */
    ghost predicate Valid()
      reads this
    {
      && Sql.UniqueBy(meetings, MeetingKey)
      && Sql.UniqueBy(agents, AgentKey)
      && Sql.UniqueBy(users, UserKey)
    }

    /** Foreign keys: every meeting references an existing agent and an existing user. */
    ghost predicate Intact()
      reads this
    {
      ReferencesIntact(meetings, agents, users)
    }

    constructor (meetings: seq<Meeting>, agents: seq<Agent>, users: seq<User>)
      ensures this.meetings == meetings && this.agents == agents && this.users == users
    {
      this.meetings := meetings;
      this.agents := agents;
      this.users := users;
    }
  }

  /** Rewriting columns other than the keys keeps the primary and foreign keys. */
  lemma SameKeysKeepConstraints(before: seq<Meeting>, after: seq<Meeting>, agents: seq<Agent>, users: seq<User>)
    requires |after| == |before|
    requires forall j :: 0 <= j < |before| ==>
      after[j].id == before[j].id && after[j].agentId == before[j].agentId && after[j].userId == before[j].userId
    ensures Sql.UniqueBy(before, MeetingKey) ==> Sql.UniqueBy(after, MeetingKey)
    ensures ReferencesIntact(before, agents, users) ==> ReferencesIntact(after, agents, users)
  {
    if Sql.UniqueBy(before, MeetingKey) {
      forall i, j | 0 <= i < j < |after| ensures MeetingKey(after[i]) != MeetingKey(after[j]) {
        assert MeetingKey(before[i]) != MeetingKey(before[j]);
      }
    }
  }
}
