/**
 * The contract-driven validator of src/resultValidator.ts. The raw result is
 * whatever JSON value the agent wrote; it must be an object holding every
 * key the contract names, then `taskId`, `status`, `commitMessage` and
 * `aiThoughts` are checked in that order, then the line limits the contract
 * sets for `commitMessage` and `aiThoughts`. The result holds exactly those
 * four fields.
 */
module ResultValidator {
  import opened Types
  import opened Text
  import opened Json

  const NotAnObjectMessage := "Agent output must be a JSON object."
  const StatusMessage := "Field \"status\" must be one of \"success\", \"blocked\", or \"failed\"."

  function MissingFieldMessage(name: string): string {
    "Missing required field: " + name
  }

  function NotAStringMessage(field: string): string {
    "Field \"" + field + "\" must be a string."
  }

  function ExceedsMessage(field: string, maxLines: int): string {
    "Field \"" + field + "\" exceeds maxLines (" + IntToString(maxLines) + ")."
  }

  /** Field `k` is the first, in contract order, whose name is not a key of the object. */
  predicate FirstMissingAt(members: seq<(string, Json)>, fields: seq<ContractField>, k: int) {
    0 <= k < |fields| && !Has(members, fields[k].name) &&
    forall j :: 0 <= j < k ==> Has(members, fields[j].name)
  }

  /** `ensureFields`: the first contract field, in contract order, whose name is not a key of the object. */
  function MissingField(members: seq<(string, Json)>, fields: seq<ContractField>): (r: Option<string>)
    ensures r.None? <==> forall k :: 0 <= k < |fields| ==> Has(members, fields[k].name)
    ensures r.Some? ==> exists k :: FirstMissingAt(members, fields, k) && fields[k].name == r.value
  {
    if fields == [] then None
    else if !Has(members, fields[0].name) then Some(fields[0].name)
    else
      var r := MissingField(members, fields[1..]);
      assert forall k :: 1 <= k < |fields| ==> fields[k] == fields[1..][k - 1];
      if r.Some? then
        var k :| FirstMissingAt(members, fields[1..], k) && fields[1..][k].name == r.value;
        assert FirstMissingAt(members, fields, k + 1);
        r
      else r
  }

  /** `expectString`: `None` is the `undefined` of a missing property. */
  function ExpectString(v: Option<Json>, field: string): Result<string> {
    if v.Some? && v.value.JString? then Ok(v.value.s) else Err(NotAStringMessage(field))
  }

  /** The status a name stands for. */
  function StatusNamed(name: string): Option<AgentStatus> {
    if name == "success" then Some(Success)
    else if name == "blocked" then Some(Stuck)
    else if name == "failed" then Some(Failed)
    else None
  }

  /** The status names and `StatusNamed` are inverse. */
  lemma StatusNamesRoundTrip(s: AgentStatus, name: string)
    ensures StatusNamed(AgentStatusName(s)) == Some(s)
    ensures StatusNamed(name).Some? ==> AgentStatusName(StatusNamed(name).value) == name
  {
  }

  /** `expectStatus`: one of the three names, compared as strings. */
  function ExpectStatus(v: Option<Json>): Result<AgentStatus> {
    if v.Some? && v.value.JString? && StatusNamed(v.value.s).Some? then Ok(StatusNamed(v.value.s).value)
    else Err(StatusMessage)
  }

  /** `contract.fields.find((f) => f.name === fieldName)`. */
  function FindField(fields: seq<ContractField>, name: string): (r: Option<ContractField>)
    ensures r.Some? ==> r.value.name == name && r.value in fields
    ensures r.None? <==> forall k :: 0 <= k < |fields| ==> fields[k].name != name
  {
    if fields == [] then None
    else if fields[0].name == name then Some(fields[0])
    else
      assert forall k :: 1 <= k < |fields| ==> fields[k] == fields[1..][k - 1];
      FindField(fields[1..], name)
  }

  /** The limit the contract sets for `fieldName`: that of the first field so named, when present and not 0. */
  function LimitFor(contract: OutputContract, fieldName: string): Option<int> {
    var field := FindField(contract.fields, fieldName);
    if field.Some? && HasLimit(field.value.maxLines) then field.value.maxLines else None
  }

  /** `enforceMaxLines`. */
  function MaxLinesError(content: string, contract: OutputContract, fieldName: string): Option<string> {
    var limit := LimitFor(contract, fieldName);
    if limit.Some? && LineCount(content) > limit.value then Some(ExceedsMessage(fieldName, limit.value)) else None
  }

  /** `content` keeps to the contract's limit for `fieldName`, if there is one. */
  predicate WithinLimit(content: string, contract: OutputContract, fieldName: string) {
    LimitFor(contract, fieldName).Some? ==> LineCount(content) <= LimitFor(contract, fieldName).value
  }

  /** `DefaultResultValidator.validate`. */
  function Validate(raw: Json, contract: OutputContract): Result<AgentOutput> {
    if !raw.JObject? then Err(NotAnObjectMessage)
    else
      var obj := raw.members;
      match MissingField(obj, contract.fields)
      case Some(name) => Err(MissingFieldMessage(name))
      case None =>
        match ExpectString(Get(obj, "taskId"), "taskId")
        case Err(e) => Err(e)
        case Ok(taskId) =>
          match ExpectStatus(Get(obj, "status"))
          case Err(e) => Err(e)
          case Ok(status) =>
            match ExpectString(Get(obj, "commitMessage"), "commitMessage")
            case Err(e) => Err(e)
            case Ok(commitMessage) =>
              match ExpectString(Get(obj, "aiThoughts"), "aiThoughts")
              case Err(e) => Err(e)
              case Ok(aiThoughts) =>
                match MaxLinesError(commitMessage, contract, "commitMessage")
                case Some(e) => Err(e)
                case None =>
                  match MaxLinesError(aiThoughts, contract, "aiThoughts")
                  case Some(e) => Err(e)
                  case None => Ok(AgentOutput(taskId, status, commitMessage, aiThoughts))
  }

  /** The string member `name`. */
  function StringAt(members: seq<(string, Json)>, name: string): string
    requires IsString(Get(members, name))
  {
    Get(members, name).value.s
  }

  /** Every contract key is a key of the object, the four values read have their types, and the texts keep to their limits. */
  predicate Acceptable(members: seq<(string, Json)>, contract: OutputContract) {
    (forall k :: 0 <= k < |contract.fields| ==> Has(members, contract.fields[k].name)) &&
    IsString(Get(members, "taskId")) &&
    IsString(Get(members, "status")) && StatusNamed(StringAt(members, "status")).Some? &&
    IsString(Get(members, "commitMessage")) && IsString(Get(members, "aiThoughts")) &&
    WithinLimit(StringAt(members, "commitMessage"), contract, "commitMessage") &&
    WithinLimit(StringAt(members, "aiThoughts"), contract, "aiThoughts")
  }

  /** A raw value is accepted exactly when it is an object that is `Acceptable`. */
  lemma ValidateOkIff(raw: Json, contract: OutputContract)
    ensures Validate(raw, contract).Ok? <==> raw.JObject? && Acceptable(raw.members, contract)
  {
  }

  /** An accepted value's four fields are copied unchanged; the status is the one its name stands for. */
  lemma ValidateCopies(raw: Json, contract: OutputContract)
    requires Validate(raw, contract).Ok?
    ensures raw.JObject? && IsString(Get(raw.members, "taskId")) && IsString(Get(raw.members, "status"))
    ensures IsString(Get(raw.members, "commitMessage")) && IsString(Get(raw.members, "aiThoughts"))
    ensures var out := Validate(raw, contract).value;
      out.taskId == StringAt(raw.members, "taskId") &&
      Some(out.status) == StatusNamed(StringAt(raw.members, "status")) &&
      AgentStatusName(out.status) == StringAt(raw.members, "status") &&
      out.commitMessage == StringAt(raw.members, "commitMessage") &&
      out.aiThoughts == StringAt(raw.members, "aiThoughts")
  {
    StatusNamesRoundTrip(Validate(raw, contract).value.status, StringAt(raw.members, "status"));
  }

  /** A contract key missing from the object is reported before any value is looked at: the first one in contract order. */
  lemma MissingKeysFirst(members: seq<(string, Json)>, contract: OutputContract, k: nat)
    requires k < |contract.fields| && !Has(members, contract.fields[k].name)
    requires forall j :: 0 <= j < k ==> Has(members, contract.fields[j].name)
    ensures Validate(JObject(members), contract) == Err(MissingFieldMessage(contract.fields[k].name))
  {
    var i := FirstMissingIndex(members, contract.fields);
    assert i == k;
  }

  /** Presence is key membership: a `taskId` key holding null passes the key check and fails the string check. */
  lemma NullTaskIdFailsStringCheck(members: seq<(string, Json)>, contract: OutputContract)
    requires forall k :: 0 <= k < |contract.fields| ==> Has(members, contract.fields[k].name)
    requires Get(members, "taskId") == Some(JNull)
    ensures Validate(JObject(members), contract) == Err(NotAStringMessage("taskId"))
  {
  }

  /** Without a contract field of that name, or without a (non-zero) `maxLines` on it, any number of lines is accepted. */
  lemma NoLimitWithoutContractLimit(content: string, contract: OutputContract, fieldName: string)
    requires forall k :: 0 <= k < |contract.fields| && contract.fields[k].name == fieldName ==> !HasLimit(contract.fields[k].maxLines)
    ensures MaxLinesError(content, contract, fieldName) == None
  {
    var f := FindField(contract.fields, fieldName);
    if f.Some? {
      var k :| 0 <= k < |contract.fields| && contract.fields[k] == f.value;
    }
  }

  /** Keys other than the contract's and the four read ones make no difference: they are dropped. */
  lemma ValidateIgnoresOtherKeys(m1: seq<(string, Json)>, m2: seq<(string, Json)>, contract: OutputContract)
    requires forall k :: 0 <= k < |contract.fields| ==> (Has(m1, contract.fields[k].name) <==> Has(m2, contract.fields[k].name))
    requires Get(m1, "taskId") == Get(m2, "taskId") && Get(m1, "status") == Get(m2, "status")
    requires Get(m1, "commitMessage") == Get(m2, "commitMessage") && Get(m1, "aiThoughts") == Get(m2, "aiThoughts")
    ensures Validate(JObject(m1), contract) == Validate(JObject(m2), contract)
  {
    SameMissingField(m1, m2, contract.fields);
  }

  /** Two objects that agree on which field names they have report the same missing field. */
  lemma SameMissingField(m1: seq<(string, Json)>, m2: seq<(string, Json)>, fields: seq<ContractField>)
    requires forall k :: 0 <= k < |fields| ==> (Has(m1, fields[k].name) <==> Has(m2, fields[k].name))
    ensures MissingField(m1, fields) == MissingField(m2, fields)
  {
    if MissingField(m1, fields).Some? || MissingField(m2, fields).Some? {
      var i1 := FirstMissingIndex(m1, fields);
      var i2 := FirstMissingIndex(m2, fields);
      assert i1 == i2;
    }
  }

  /** The index of the field `MissingField` reports. */
  lemma FirstMissingIndex(members: seq<(string, Json)>, fields: seq<ContractField>) returns (k: nat)
    requires MissingField(members, fields).Some?
    ensures FirstMissingAt(members, fields, k) && MissingField(members, fields) == Some(fields[k].name)
  {
    k :| FirstMissingAt(members, fields, k) && fields[k].name == MissingField(members, fields).value;
  }
}
