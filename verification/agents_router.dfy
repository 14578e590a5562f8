/**
 * The agents procedures: the owner-scoped `update` and `remove` (whose deletion cascades to
 * the agent's meetings), and the `getOne` / `getMany` queries, which report how many meetings
 * use each agent. Every procedure is scoped to the signed-in caller, passed as `caller`.
 */
module AgentsRouter {
  import opened Wrappers
  import opened MeetingSchema
  import opened Database
  import opened Rpc
  import Sql
  import Text
  import Paging
  import AgentInput

  const AgentNotFound := "Agent not found"

  /** `where(and(eq(agents.id, id), eq(agents.userId, caller)))`. */
  function OwnedBy(id: string, caller: string): Agent -> bool {
    (a: Agent) => a.id == id && a.userId == caller
  }

  /** Its negation: the rows an owner-scoped delete keeps. */
  function NotOwnedBy(id: string, caller: string): Agent -> bool {
    (a: Agent) => !(a.id == id && a.userId == caller)
  }

  /** The first of the caller's agents with this id. */
  function FindOwned(rows: seq<Agent>, id: string, caller: string): (r: Option<nat>)
    ensures r.Some? ==> r.value < |rows| && rows[r.value].id == id && rows[r.value].userId == caller
    ensures r.None? <==> forall j :: 0 <= j < |rows| ==> !(rows[j].id == id && rows[j].userId == caller)
  {
    Sql.FirstIndex(rows, OwnedBy(id, caller))
  }

  // ---------------------------------------------------------------- update and remove

  /** `update(agents).set(input).where(id, owner)`: the matched rows take the new name and instructions. */
  function Revise(rows: seq<Agent>, id: string, caller: string, name: string, instructions: string): (r: seq<Agent>)
    ensures |r| == |rows|
    ensures forall j :: 0 <= j < |rows| ==>
      r[j] == if rows[j].id == id && rows[j].userId == caller then rows[j].(name := name, instructions := instructions) else rows[j]
  {
    seq(|rows|, j requires 0 <= j < |rows| =>
      if rows[j].id == id && rows[j].userId == caller then rows[j].(name := name, instructions := instructions) else rows[j])
  }

  /** Revising agents keeps every agent id, hence the primary key and every meeting's reference. */
  lemma ReviseKeepsConstraints(agents: seq<Agent>, id: string, caller: string, name: string, instructions: string,
                               meetings: seq<Meeting>, users: seq<User>)
    ensures Sql.UniqueBy(agents, AgentKey) ==> Sql.UniqueBy(Revise(agents, id, caller, name, instructions), AgentKey)
    ensures ReferencesIntact(meetings, agents, users) ==>
              ReferencesIntact(meetings, Revise(agents, id, caller, name, instructions), users)
  {
    var after := Revise(agents, id, caller, name, instructions);
    if Sql.UniqueBy(agents, AgentKey) {
      forall i, j | 0 <= i < j < |after| ensures AgentKey(after[i]) != AgentKey(after[j]) {
        assert AgentKey(agents[i]) != AgentKey(agents[j]);
      }
    }
    if ReferencesIntact(meetings, agents, users) {
      forall i | 0 <= i < |meetings| ensures FindAgent(after, meetings[i].agentId).Some? {
        var a := FindAgent(agents, meetings[i].agentId).value;
        assert after[a].id == meetings[i].agentId;
      }
    }
  }

  /** `update`: the input is validated; the caller's agent with that id takes the new name and
      instructions and is returned; NOT_FOUND, with nothing changed, when the caller has no such agent. */
  method Update(db: Db, caller: string, name: string, instructions: string, id: string) returns (r: Result<Agent, Error>)
    modifies db
    ensures AgentInput.ParseUpdate(name, instructions, id).Err? ==>
              r == Err(BadRequest(AgentInput.ParseUpdate(name, instructions, id).error)) && db.agents == old(db.agents)
    ensures AgentInput.ParseUpdate(name, instructions, id).Ok? ==>
              match FindOwned(old(db.agents), id, caller)
              case None => r == Err(NotFound(AgentNotFound)) && db.agents == old(db.agents)
              case Some(i) =>
                && db.agents == Revise(old(db.agents), id, caller, name, instructions)
                && r == Ok(db.agents[i])
    ensures db.meetings == old(db.meetings) && db.users == old(db.users)
    ensures old(db.Valid()) ==> db.Valid()
    ensures old(db.Intact()) ==> db.Intact()
  {
    var parsed := AgentInput.ParseUpdate(name, instructions, id);
    if parsed.Err? {
      return Err(BadRequest(parsed.error));
    }
    var found := FindOwned(db.agents, id, caller);
    if found.None? {
      return Err(NotFound(AgentNotFound));
    }
    ReviseKeepsConstraints(db.agents, id, caller, name, instructions, db.meetings, db.users);
    db.agents := Revise(db.agents, id, caller, name, instructions);
    r := Ok(db.agents[found.value]);
  }

  /** With agent ids unique, `update` changes the one agent it returns and no other. */
  lemma UpdateChangesOnlyThatAgent(agents: seq<Agent>, id: string, caller: string, name: string, instructions: string)
    requires Sql.UniqueBy(agents, AgentKey)
    requires FindOwned(agents, id, caller).Some?
    ensures var i := FindOwned(agents, id, caller).value;
            var after := Revise(agents, id, caller, name, instructions);
            && after[i] == agents[i].(name := name, instructions := instructions)
            && forall j :: 0 <= j < |agents| && j != i ==> after[j] == agents[j]
  {
    var i := FindOwned(agents, id, caller).value;
    forall j | 0 <= j < |agents| && j != i ensures agents[j].id != id {
      if j < i {
        assert AgentKey(agents[j]) != AgentKey(agents[i]);
      } else {
        assert AgentKey(agents[i]) != AgentKey(agents[j]);
      }
    }
  }

  /** Deleting the caller's agents with this id, and by the cascade every meeting that
      references that id, keeps every remaining meeting's agent and owner. */
  lemma RemoveKeepsReferences(meetings: seq<Meeting>, agents: seq<Agent>, users: seq<User>, id: string, caller: string)
    ensures ReferencesIntact(meetings, agents, users) ==>
              ReferencesIntact(DeleteAgentCascade(meetings, id), Sql.Where(agents, NotOwnedBy(id, caller)), users)
  {
    var ms := DeleteAgentCascade(meetings, id);
    var as' := Sql.Where(agents, NotOwnedBy(id, caller));
    if ReferencesIntact(meetings, agents, users) {
      forall k | 0 <= k < |ms|
        ensures FindAgent(as', ms[k].agentId).Some? && FindUser(users, ms[k].userId).Some?
      {
        var j :| 0 <= j < |meetings| && meetings[j] == ms[k];
        var a := FindAgent(agents, meetings[j].agentId).value;
        assert NotOwnedBy(id, caller)(agents[a]);
        assert agents[a] in as';
      }
    }
  }

  /** `remove`: deletes the caller's agent with this id and, through `ON DELETE CASCADE`, every
      meeting that uses it, and returns the agent; NOT_FOUND, with nothing deleted, when the
      caller has no such agent. */
  method Remove(db: Db, caller: string, id: string) returns (r: Result<Agent, Error>)
    modifies db
    ensures match FindOwned(old(db.agents), id, caller)
            case None =>
              r == Err(NotFound(AgentNotFound)) && db.agents == old(db.agents) && db.meetings == old(db.meetings)
            case Some(i) =>
              && r == Ok(old(db.agents)[i])
              && db.agents == Sql.Where(old(db.agents), NotOwnedBy(id, caller))
              && db.meetings == DeleteAgentCascade(old(db.meetings), id)
    ensures db.users == old(db.users)
    ensures old(db.Valid()) ==> db.Valid()
    ensures old(db.Intact()) ==> db.Intact()
  {
    var found := FindOwned(db.agents, id, caller);
    if found.None? {
      return Err(NotFound(AgentNotFound));
    }
    var removed := db.agents[found.value];
    Sql.WhereKeepsUnique(db.agents, NotOwnedBy(id, caller), AgentKey);
    RemoveKeepsReferences(db.meetings, db.agents, db.users, id, caller);
    db.agents := Sql.Where(db.agents, NotOwnedBy(id, caller));
    db.meetings := DeleteAgentCascade(db.meetings, id);
    r := Ok(removed);
  }

  // ---------------------------------------------------------------- getOne and getMany

  /** An agent with the number of meetings that use it. */
  datatype AgentDetail = AgentDetail(agent: Agent, meetingCount: nat)

  /** `db.$count(meetings, eq(agents.id, meetings.agentId))`, over every owner's meetings. */
  function MeetingCount(meetings: seq<Meeting>, agentId: string): (n: nat)
    ensures n <= |meetings|
  {
    |Sql.Where(meetings, ForAgent(agentId))|
  }

  /** `getOne`: the caller's agent with this id and its meeting count; NOT_FOUND when the
      caller has no such agent. */
  function GetOne(agents: seq<Agent>, meetings: seq<Meeting>, caller: string, id: string): (r: Result<AgentDetail, Error>)
    ensures r.Err? <==> FindOwned(agents, id, caller).None?
    ensures r.Err? ==> r.error == NotFound(AgentNotFound)
    ensures r.Ok? ==> r.value.agent == agents[FindOwned(agents, id, caller).value]
                      && r.value.meetingCount == MeetingCount(meetings, id)
  {
    match FindOwned(agents, id, caller)
    case None => Err(NotFound(AgentNotFound))
    case Some(i) => Ok(AgentDetail(agents[i], MeetingCount(meetings, agents[i].id)))
  }

  /** The meeting count `getOne` reports is exactly the number of meetings `remove` then
      deletes along with the agent. */
  lemma MeetingCountIsCascadeSize(agents: seq<Agent>, meetings: seq<Meeting>, caller: string, id: string)
    requires GetOne(agents, meetings, caller, id).Ok?
    ensures GetOne(agents, meetings, caller, id).value.meetingCount == |meetings| - |DeleteAgentCascade(meetings, id)|
  {
    CascadeRemovesAgentMeetings(meetings, id);
  }

  /** The `where` of `getMany` and of its count: the caller's agents, and the name search if set. */
  predicate Matches(a: Agent, caller: string, search: Option<string>) {
    a.userId == caller && (Truthy(search) ==> Text.ContainsIgnoringCase(a.name, search.value))
  }

  function ListedBy(caller: string, search: Option<string>): Agent -> bool {
    (a: Agent) => Matches(a, caller, search)
  }

  /** The agents `getMany` counts. */
  function Listed(agents: seq<Agent>, caller: string, search: Option<string>): (r: seq<Agent>)
    ensures forall k :: 0 <= k < |r| ==> r[k] in agents && Matches(r[k], caller, search)
    ensures forall i :: 0 <= i < |agents| && Matches(agents[i], caller, search) ==> agents[i] in r
  {
    Sql.Where(agents, ListedBy(caller, search))
  }

  function AgentOrder(a: Agent): Sql.OrderKey {
    Sql.OrderKey(a.createdAt, a.id)
  }

  /** The listed agents newest first (`ORDER BY created_at DESC, id DESC`). */
  function Ordered(agents: seq<Agent>, caller: string, search: Option<string>): (r: seq<Agent>)
    ensures |r| == |Listed(agents, caller, search)|
  {
    Sql.OrderNewestFirst(Listed(agents, caller, search), AgentOrder)
  }

  /** The ordered list is the listed agents, newest first; so it holds only agents that pass the filter. */
  lemma OrderedIsSortedListing(agents: seq<Agent>, caller: string, search: Option<string>)
    ensures var r := Ordered(agents, caller, search);
            && Sql.SortedNewestFirst(r, AgentOrder)
            && multiset(r) == multiset(Listed(agents, caller, search))
            && forall k :: 0 <= k < |r| ==> Matches(r[k], caller, search)
  {
    var listed := Listed(agents, caller, search);
    var r := Ordered(agents, caller, search);
    assert forall k :: 0 <= k < |r| ==> r[k] in multiset(listed);
  }

  /** One page of `getMany`. */
  datatype AgentPage = AgentPage(items: seq<AgentDetail>, total: nat, totalPages: nat)

  /** `Math.max(1, Math.ceil(total / pageSize))`: never below 1, even for an empty list. */
  function TotalPages(total: nat, pageSize: nat): (n: nat)
    requires pageSize >= 1
    ensures n >= 1
    ensures n * pageSize >= total
    ensures total > 0 ==> (n - 1) * pageSize < total
    ensures total == 0 ==> n == 1
  {
    var c := Sql.CeilDiv(total, pageSize);
    if c < 1 then 1 else c
  }

  /** Each agent of a page with its meeting count. */
  function CountAll(rows: seq<Agent>, meetings: seq<Meeting>): (r: seq<AgentDetail>)
    ensures |r| == |rows|
    ensures forall k :: 0 <= k < |rows| ==> r[k].agent == rows[k] && r[k].meetingCount == MeetingCount(meetings, rows[k].id)
  {
    seq(|rows|, k requires 0 <= k < |rows| => AgentDetail(rows[k], MeetingCount(meetings, rows[k].id)))
  }

  /** The page `req` of the listed agents, absent when its offset is negative. */
  function PageFor(agents: seq<Agent>, meetings: seq<Meeting>, caller: string, req: Paging.PageRequest,
                   search: Option<string>): (r: Option<AgentPage>)
    requires req.pageSize >= 1
    ensures r.None? <==> req.page < 1
    ensures r.Some? ==>
              && r.value.total == |Listed(agents, caller, search)|
              && r.value.totalPages == TotalPages(r.value.total, req.pageSize)
              && |r.value.items| <= req.pageSize
    ensures r.Some? ==> forall k :: 0 <= k < |r.value.items| ==>
              r.value.items[k].meetingCount == MeetingCount(meetings, r.value.items[k].agent.id)
  {
    match Paging.PageOf(Ordered(agents, caller, search), req)
    case None => None
    case Some(rows) =>
      var total := |Listed(agents, caller, search)|;
      Some(AgentPage(CountAll(rows, meetings), total, TotalPages(total, req.pageSize)))
  }

  /** `getMany`: the page of the caller's agents matching the search, newest first, each with
      its meeting count; `total` counts the same set and `totalPages` is at least 1. A page
      size outside [1, 100] is refused; a page below 1 makes the offset negative and the query fails. */
  function GetMany(agents: seq<Agent>, meetings: seq<Meeting>, caller: string, page: Option<int>,
                   pageSize: Option<int>, search: Option<string>): (r: Result<AgentPage, Error>)
    ensures Paging.ParsePaging(page, pageSize).Err? ==> r == Err(BadRequest(Paging.ParsePaging(page, pageSize).error))
    ensures Paging.ParsePaging(page, pageSize).Ok? && page.GetOr(Paging.DefaultPage) < 1 ==> r == Err(InternalServerError)
    ensures r.Ok? <==> Paging.ParsePaging(page, pageSize).Ok? && page.GetOr(Paging.DefaultPage) >= 1
    ensures r.Ok? ==> r.value == PageFor(agents, meetings, caller, Paging.ParsePaging(page, pageSize).value, search).value
    ensures r.Ok? ==>
              var size := pageSize.GetOr(Paging.DefaultPageSize);
              && r.value.total == |Listed(agents, caller, search)|
              && r.value.totalPages == TotalPages(r.value.total, size)
              && r.value.totalPages >= 1
              && |r.value.items| <= size
  {
    match Paging.ParsePaging(page, pageSize)
    case Err(issues) => Err(BadRequest(issues))
    case Ok(req) =>
      match PageFor(agents, meetings, caller, req, search)
      case None => Err(InternalServerError)
      case Some(result) => Ok(result)
  }

  /** Entry `k` of page `req` is the agent at place `(page - 1) * pageSize + k` of the ordered list. */
  lemma PageForItemAt(agents: seq<Agent>, meetings: seq<Meeting>, caller: string, req: Paging.PageRequest,
                      search: Option<string>, k: nat)
    requires req.pageSize >= 1
    requires PageFor(agents, meetings, caller, req, search).Some?
    requires k < |PageFor(agents, meetings, caller, req, search).value.items|
    ensures 0 <= Paging.Offset(req) + k < |Ordered(agents, caller, search)|
    ensures PageFor(agents, meetings, caller, req, search).value.items[k].agent ==
            Ordered(agents, caller, search)[Paging.Offset(req) + k]
  {
    var ordered := Ordered(agents, caller, search);
    var rows := Paging.PageOf(ordered, req).value;
    var items := PageFor(agents, meetings, caller, req, search).value.items;
    assert items == CountAll(rows, meetings);
    assert items[k].agent == rows[k];
  }

  /** What a page of `getMany` holds: only the caller's agents matching the search, newest first. */
  lemma GetManyItemsMatch(agents: seq<Agent>, meetings: seq<Meeting>, caller: string, req: Paging.PageRequest,
                          search: Option<string>)
    requires Paging.MinPageSize <= req.pageSize <= Paging.MaxPageSize
    requires GetMany(agents, meetings, caller, Some(req.page), Some(req.pageSize), search).Ok?
    ensures var items := GetMany(agents, meetings, caller, Some(req.page), Some(req.pageSize), search).value.items;
            && (forall k :: 0 <= k < |items| ==> Matches(items[k].agent, caller, search))
            && (forall k, l :: 0 <= k < l < |items| ==>
                  Sql.NewerOrSame(AgentOrder(items[k].agent), AgentOrder(items[l].agent)))
  {
    var items := PageFor(agents, meetings, caller, req, search).value.items;
    OrderedIsSortedListing(agents, caller, search);
    forall k | 0 <= k < |items| ensures Matches(items[k].agent, caller, search) {
      PageForItemAt(agents, meetings, caller, req, search, k);
    }
    forall k, l | 0 <= k < l < |items|
      ensures Sql.NewerOrSame(AgentOrder(items[k].agent), AgentOrder(items[l].agent))
    {
      PageForItemAt(agents, meetings, caller, req, search, k);
      PageForItemAt(agents, meetings, caller, req, search, l);
    }
  }

  /** With no matching agent, page 1 is empty yet reported as 1 of 1 page. */
  lemma EmptyListingHasOnePage(agents: seq<Agent>, meetings: seq<Meeting>, caller: string, pageSize: int,
                               search: Option<string>)
    requires Paging.MinPageSize <= pageSize <= Paging.MaxPageSize
    requires Listed(agents, caller, search) == []
    ensures var r := GetMany(agents, meetings, caller, Some(1), Some(pageSize), search);
            r.Ok? && r.value.items == [] && r.value.total == 0 && r.value.totalPages == 1
  {
  }
}
