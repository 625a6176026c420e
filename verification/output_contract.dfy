/**
 * The default output contract (src/outputContract.ts): four fields in order,
 * with a ten-line limit on the commit message and a hundred-line limit on the
 * thoughts, and what the result validator accepts under it.
 */
module OutputContract {
  import opened Types
  import opened Text
  import opened Json
  import opened ResultValidator

  const TaskIdDescription := "The task id provided in the tasks file."
  const StatusDescription := "One of \"success\", \"blocked\", or \"failed\"."
  const CommitMessageDescription := "Human-readable commit message; imperative subject <=50 chars, blank line before body, ~72-char body focused on what/why."
  const AiThoughtsDescription := "Structured notes with all sections present: Changes made; Assumptions; Decisions taken; Points of unclarity (write \"None\" if none); Tests run status. Include each section even when empty."

  const CommitMessageLines := 10
  const AiThoughtsLines := 100

  const DefaultOutputContract := Types.OutputContract([
    ContractField("taskId", TaskIdDescription, None),
    ContractField("status", StatusDescription, None),
    ContractField("commitMessage", CommitMessageDescription, Some(CommitMessageLines)),
    ContractField("aiThoughts", AiThoughtsDescription, Some(AiThoughtsLines))
  ])

  /** The commit message may have at most ten lines. */
  lemma CommitMessageLimit()
    ensures LimitFor(DefaultOutputContract, "commitMessage") == Some(CommitMessageLines)
  {
    var fs := DefaultOutputContract.fields;
    assert |fs[0].name| != |"commitMessage"| && |fs[1].name| != |"commitMessage"|;
    assert fs[1..][1..] == fs[2..];
    assert FindField(fs, "commitMessage") == FindField(fs[2..], "commitMessage");
  }

  /** The thoughts may have at most a hundred lines. */
  lemma AiThoughtsLimit()
    ensures LimitFor(DefaultOutputContract, "aiThoughts") == Some(AiThoughtsLines)
  {
    var fs := DefaultOutputContract.fields;
    assert fs[0].name[0] != 'a' && fs[1].name[0] != 'a' && fs[2].name[0] != 'a';
    assert fs[1..][1..] == fs[2..] && fs[2..][1..] == fs[3..];
    assert FindField(fs, "aiThoughts") == FindField(fs[3..], "aiThoughts");
  }

  /** The id and the status have no limit. */
  lemma IdAndStatusUnlimited()
    ensures LimitFor(DefaultOutputContract, "taskId") == None
    ensures LimitFor(DefaultOutputContract, "status") == None
  {
    var fs := DefaultOutputContract.fields;
    assert fs[0].name[0] == 't' && fs[1].name[0] == 's';
    assert FindField(fs, "taskId") == Some(fs[0]);
    assert fs[0].name != "status";
    assert FindField(fs, "status") == Some(fs[1]);
  }

  /** The four members the validator reads are strings. */
  predicate HasStringFields(members: seq<(string, Json)>) {
    IsString(Get(members, "taskId")) && IsString(Get(members, "status")) &&
    IsString(Get(members, "commitMessage")) && IsString(Get(members, "aiThoughts"))
  }

  /** Where the four members are strings, every key the contract names is present. */
  lemma ContractKeysPresent(members: seq<(string, Json)>)
    requires HasStringFields(members)
    ensures forall k :: 0 <= k < |DefaultOutputContract.fields| ==> Has(members, DefaultOutputContract.fields[k].name)
  {
    var fs := DefaultOutputContract.fields;
    forall k | 0 <= k < |fs|
      ensures Has(members, fs[k].name)
    {
      if k == 0 {} else if k == 1 {} else if k == 2 {} else {}
    }
  }

  /**
   * Under the default contract, a raw value is accepted exactly when it is an
   * object whose `taskId`, `commitMessage` and `aiThoughts` are strings, whose
   * `status` names a status, whose commit message has at most ten lines and
   * whose thoughts have at most a hundred.
   */
  lemma DefaultContractAccepts(raw: Json)
    ensures Validate(raw, DefaultOutputContract).Ok? <==>
      raw.JObject? && HasStringFields(raw.members) &&
      StatusNamed(StringAt(raw.members, "status")).Some? &&
      LineCount(StringAt(raw.members, "commitMessage")) <= CommitMessageLines &&
      LineCount(StringAt(raw.members, "aiThoughts")) <= AiThoughtsLines
  {
    ValidateOkIff(raw, DefaultOutputContract);
    CommitMessageLimit();
    AiThoughtsLimit();
    if raw.JObject? {
      if HasStringFields(raw.members) {
        ContractKeysPresent(raw.members);
      }
      AcceptableUnderLimits(raw.members, DefaultOutputContract, CommitMessageLines, AiThoughtsLines);
    }
  }

  /** Under a contract whose keys the four string members supply, acceptance is those members, the status name and the two limits. */
  lemma AcceptableUnderLimits(members: seq<(string, Json)>, contract: Types.OutputContract, messageLines: int, thoughtsLines: int)
    requires LimitFor(contract, "commitMessage") == Some(messageLines) && LimitFor(contract, "aiThoughts") == Some(thoughtsLines)
    requires HasStringFields(members) ==> forall k :: 0 <= k < |contract.fields| ==> Has(members, contract.fields[k].name)
    ensures Acceptable(members, contract) <==>
      HasStringFields(members) && StatusNamed(StringAt(members, "status")).Some? &&
      LineCount(StringAt(members, "commitMessage")) <= messageLines &&
      LineCount(StringAt(members, "aiThoughts")) <= thoughtsLines
  {
  }

  /** A commit message of more than ten lines is rejected with the limit in the message, once every earlier check passes. */
  lemma LongCommitMessageRejected(members: seq<(string, Json)>)
    requires IsString(Get(members, "taskId")) && IsString(Get(members, "status")) && StatusNamed(StringAt(members, "status")).Some?
    requires IsString(Get(members, "commitMessage")) && IsString(Get(members, "aiThoughts"))
    requires LineCount(StringAt(members, "commitMessage")) > CommitMessageLines
    ensures Validate(JObject(members), DefaultOutputContract) == Err(ExceedsMessage("commitMessage", CommitMessageLines))
  {
    CommitMessageLimit();
    ContractKeysPresent(members);
  }
}
