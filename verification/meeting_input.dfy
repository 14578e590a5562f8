/**
 * The input schemas of the meetings procedures: a name that must not be blank (and is
 * passed on trimmed) and a non-empty agent id; the update schema adds a non-empty id.
 * All failing fields are reported together, in field order.
 */
module MeetingInput {
  import opened Wrappers
  import Text

  const NameRequired := "Name is required"
  const AgentRequired := "Agent is required"
  const IdRequired := "Id is required"

  /** What reaches the procedure once the input parses. */
  datatype MeetingFields = MeetingFields(name: string, agentId: string)

  datatype MeetingUpdateFields = MeetingUpdateFields(name: string, agentId: string, id: string)

  /** The messages of the base schema's failing fields, in field order. */
  function BaseIssues(name: string, agentId: string): (r: seq<string>)
    ensures NameRequired in r <==> Text.IsBlank(name)
    ensures AgentRequired in r <==> agentId == ""
    ensures |r| <= 2
  {
    Text.TrimEmptyIffBlank(name);
    (if Text.Trim(name) == "" then [NameRequired] else [])
    + (if agentId == "" then [AgentRequired] else [])
  }

  /** `meetingsInsertSchema.safeParse`. */
  function ParseInsert(name: string, agentId: string): (r: Result<MeetingFields, seq<string>>)
    ensures r.Ok? <==> !Text.IsBlank(name) && agentId != ""
    ensures r.Ok? ==> r.value == MeetingFields(Text.Trim(name), agentId)
    ensures r.Err? ==> r.error != [] && r.error == BaseIssues(name, agentId)
  {
    var issues := BaseIssues(name, agentId);
    if issues == [] then Ok(MeetingFields(Text.Trim(name), agentId)) else Err(issues)
  }

  /** `meetingsUpdateSchema.safeParse`: the base fields, then the id. */
  function ParseUpdate(name: string, agentId: string, id: string): (r: Result<MeetingUpdateFields, seq<string>>)
    ensures r.Ok? <==> !Text.IsBlank(name) && agentId != "" && id != ""
    ensures r.Ok? ==> r.value == MeetingUpdateFields(Text.Trim(name), agentId, id)
    ensures r.Err? ==> r.error == BaseIssues(name, agentId) + (if id == "" then [IdRequired] else [])
  {
    var issues := BaseIssues(name, agentId) + (if id == "" then [IdRequired] else []);
    if issues == [] then Ok(MeetingUpdateFields(Text.Trim(name), agentId, id)) else Err(issues)
  }

  /** A name that parses comes out trimmed: no whitespace at either end, not empty, and
      parsing it again gives it back unchanged. */
  lemma ParsedNameIsTrimmed(name: string, agentId: string)
    requires ParseInsert(name, agentId).Ok?
    ensures var n := ParseInsert(name, agentId).value.name;
            n != "" && !Text.IsWhitespace(n[0]) && !Text.IsWhitespace(n[|n| - 1])
            && ParseInsert(n, agentId) == ParseInsert(name, agentId)
  {
    Text.TrimEmptyIffBlank(name);
    Text.TrimEnds(name);
    ParseCleanName(Text.Trim(name), agentId);
  }

  /** A non-empty name with no whitespace at either end parses as itself. */
  lemma ParseCleanName(n: string, agentId: string)
    requires n != "" && !Text.IsWhitespace(n[0]) && !Text.IsWhitespace(n[|n| - 1]) && agentId != ""
    ensures ParseInsert(n, agentId) == Ok(MeetingFields(n, agentId))
  {
    Text.TrimKeepsClean(n);
  }

  /** Only the name is trimmed: any non-empty whitespace-only text is refused as a name but
      passes, untouched, as the agent id. */
  lemma BlankAgentIdAccepted(name: string, agentId: string)
    requires !Text.IsBlank(name) && agentId != "" && Text.IsBlank(agentId)
    ensures ParseInsert(name, agentId) == Ok(MeetingFields(Text.Trim(name), agentId))
    ensures ParseInsert(agentId, agentId) == Err([NameRequired])
  {
    Text.TrimEmptyIffBlank(agentId);
    assert BaseIssues(agentId, agentId) == [NameRequired];
  }

  /** Whatever passes the update schema passes the insert schema with the same name and agent. */
  lemma UpdateExtendsInsert(name: string, agentId: string, id: string)
    ensures ParseUpdate(name, agentId, id).Ok? ==>
              ParseInsert(name, agentId) == Ok(MeetingFields(ParseUpdate(name, agentId, id).value.name, agentId))
  {
  }
}
