/**
 * The input schemas of the agents procedures: a non-empty name and non-empty instructions
 * (neither trimmed); the update schema adds a non-empty id. All failing fields are reported
 * together, in field order.
 */
module AgentInput {
  import opened Wrappers
  import Text

  const NameRequired := "Name is required"
  const InstructionsRequired := "Instructions are required"
  const IdRequired := "ID is required"

  datatype AgentFields = AgentFields(name: string, instructions: string)

  datatype AgentUpdateFields = AgentUpdateFields(name: string, instructions: string, id: string)

  /** The messages of the base schema's failing fields, in field order. */
  function BaseIssues(name: string, instructions: string): (r: seq<string>)
    ensures NameRequired in r <==> name == ""
    ensures InstructionsRequired in r <==> instructions == ""
    ensures |r| <= 2
  {
    (if name == "" then [NameRequired] else [])
    + (if instructions == "" then [InstructionsRequired] else [])
  }

  /** `agentsInsertSchema.safeParse`: the fields pass through unchanged. */
  function ParseInsert(name: string, instructions: string): (r: Result<AgentFields, seq<string>>)
    ensures r.Ok? <==> name != "" && instructions != ""
    ensures r.Ok? ==> r.value == AgentFields(name, instructions)
    ensures r.Err? ==> r.error != [] && r.error == BaseIssues(name, instructions)
  {
    var issues := BaseIssues(name, instructions);
    if issues == [] then Ok(AgentFields(name, instructions)) else Err(issues)
  }

  /** `agentsUpdateSchema.safeParse`: the base fields, then the id. */
  function ParseUpdate(name: string, instructions: string, id: string): (r: Result<AgentUpdateFields, seq<string>>)
    ensures r.Ok? <==> name != "" && instructions != "" && id != ""
    ensures r.Ok? ==> r.value == AgentUpdateFields(name, instructions, id)
    ensures r.Err? ==> r.error == BaseIssues(name, instructions) + (if id == "" then [IdRequired] else [])
  {
    var issues := BaseIssues(name, instructions) + (if id == "" then [IdRequired] else []);
    if issues == [] then Ok(AgentUpdateFields(name, instructions, id)) else Err(issues)
  }

  /** Agent names are not trimmed: any non-empty whitespace-only name is accepted as it is. */
  lemma BlankNameAccepted(name: string, instructions: string)
    requires name != "" && Text.IsBlank(name) && instructions != ""
    ensures ParseInsert(name, instructions) == Ok(AgentFields(name, instructions))
  {
  }
}
