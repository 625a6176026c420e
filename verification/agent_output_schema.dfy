/**
 * The schema the agent's output is checked against (src/agentOutputSchema.ts):
 * eight string fields, none of them optional, with the status enumeration,
 * a ten-line commit message and five twenty-line thought fields.
 */
module AgentOutputSchema {
  import opened Types
  import opened Text
  import opened Json
  import opened SchemaValidator

  function StringField(description: string, maxLines: Option<int>, enumValues: Option<seq<string>>): SchemaField {
    SchemaField(SchemaValidator.StringField, Some(description), None, maxLines, enumValues)
  }

  const StatusNames: seq<string> := ["success", "blocked", "failed"]

  const CommitMessageLines := 10
  const ThoughtLines := 20

  /** The names of the five free-text thought fields, in schema order. */
  const ThoughtFields: seq<string> := ["changesMade", "assumptions", "decisionsTaken", "pointsOfUnclarity", "testsRun"]

  const TaskIdDescription := "(type: string) The task id provided in the tasks file."
  const StatusDescription := "(type: string) One of \"success\", \"blocked\", or \"failed\"."
  const CommitMessageDescription := "(type: string) Full commit message (subject + body); imperative subject <=50 chars, blank line before body, ~72-char body focused on what/why."
  const ChangesMadeDescription := "(type: string) What changed in this task; keep concise but specific."
  const AssumptionsDescription := "(type: string) Assumptions made; include context or leave \"None\" if not applicable."
  const DecisionsTakenDescription := "(type: string) Key decisions and rationale; include trade-offs considered."
  const PointsOfUnclarityDescription := "(type: string) Open questions or unclear areas (write \"None\" if none)."
  const TestsRunDescription := "(type: string) Tests run and outcomes; state explicitly if no tests ran."

  const AgentOutputSchema: Schema := [
    ("taskId", StringField(TaskIdDescription, None, None)),
    ("status", StringField(StatusDescription, None, Some(StatusNames))),
    ("commitMessage", StringField(CommitMessageDescription, Some(CommitMessageLines), None)),
    ("changesMade", StringField(ChangesMadeDescription, Some(ThoughtLines), None)),
    ("assumptions", StringField(AssumptionsDescription, Some(ThoughtLines), None)),
    ("decisionsTaken", StringField(DecisionsTakenDescription, Some(ThoughtLines), None)),
    ("pointsOfUnclarity", StringField(PointsOfUnclarityDescription, Some(ThoughtLines), None)),
    ("testsRun", StringField(TestsRunDescription, Some(ThoughtLines), None))
  ]

  /** Every field of the schema is a string field that is required (none says `required: false`). */
  lemma AllFieldsRequiredStrings()
    ensures forall k :: 0 <= k < |AgentOutputSchema| ==>
      AgentOutputSchema[k].1.fieldType == SchemaValidator.StringField && IsRequired(AgentOutputSchema[k].1)
  {
  }

  /** The fields, in order, with their limits: only status has an enumeration; only the commit message and the thoughts have a limit. */
  lemma SchemaFields()
    ensures |AgentOutputSchema| == 8
    ensures AgentOutputSchema[0].0 == "taskId" && AgentOutputSchema[0].1.maxLines == None && AgentOutputSchema[0].1.enumValues == None
    ensures AgentOutputSchema[1].0 == "status" && AgentOutputSchema[1].1.maxLines == None && AgentOutputSchema[1].1.enumValues == Some(StatusNames)
    ensures AgentOutputSchema[2].0 == "commitMessage" && AgentOutputSchema[2].1.maxLines == Some(CommitMessageLines) && AgentOutputSchema[2].1.enumValues == None
    ensures forall t :: 0 <= t < |ThoughtFields| ==>
      AgentOutputSchema[t + 3].0 == ThoughtFields[t] && AgentOutputSchema[t + 3].1.maxLines == Some(ThoughtLines) && AgentOutputSchema[t + 3].1.enumValues == None
  {
  }

  /** The member `name` holds a string that meets the field's enumeration and line limit. */
  predicate StringFieldHolds(members: seq<(string, Json)>, name: string, spec: SchemaField) {
    IsString(Get(members, name)) &&
    (spec.enumValues.Some? ==> Get(members, name).value.s in spec.enumValues.value) &&
    (HasLimit(spec.maxLines) ==> LineCount(Get(members, name).value.s) <= spec.maxLines.value)
  }

  /** A required string field passes exactly when it holds a string within its enumeration and limit. */
  lemma RequiredStringField(members: seq<(string, Json)>, name: string, spec: SchemaField)
    requires spec.fieldType == SchemaValidator.StringField && IsRequired(spec)
    ensures FieldError(members, name, spec).None? <==> StringFieldHolds(members, name, spec)
  {
    FieldErrorNoneIff(members, name, spec);
  }

  /**
   * The schema accepts an object exactly when each of its fields holds a
   * string meeting that field's enumeration and limit (`SchemaFields` lists
   * them); a missing or null field is never accepted.
   */
  lemma AgentOutputAccepted(members: seq<(string, Json)>)
    ensures FirstFieldError(members, AgentOutputSchema).None? <==>
      forall k :: 0 <= k < |AgentOutputSchema| ==> StringFieldHolds(members, AgentOutputSchema[k].0, AgentOutputSchema[k].1)
  {
    var S := AgentOutputSchema;
    FirstFieldErrorIsFirst(members, S);
    AllFieldsRequiredStrings();
    forall k | 0 <= k < |S|
      ensures FieldError(members, S[k].0, S[k].1).None? <==> StringFieldHolds(members, S[k].0, S[k].1)
    {
      RequiredStringField(members, S[k].0, S[k].1);
    }
  }
}
