/**
 * The generic field-schema validator of src/schemaValidator.ts.
 *
 * A schema is an ordered list of named field specifications (the order of
 * `Object.entries`). `Parse` checks its input is JSON text, has the text
 * parsed by an abstract JSON parser (`parseJson`, `None` when `JSON.parse`
 * throws), checks the value is a plain object, then validates the fields in
 * schema order and fails with the first failing field's message. On success
 * the parsed object itself is returned, extra keys included.
 */
module SchemaValidator {
  import opened Types
  import opened Text
  import opened Json

  /** `SchemaFieldType`. */
  datatype FieldType = BooleanField | StringField | StringArrayField

  /** `SchemaField`: every property but `type` is optional. */
  datatype SchemaField = SchemaField(
    fieldType: FieldType,
    descriptionOfContent: Option<string>,
    required: Option<bool>,
    maxLines: Option<int>,
    enumValues: Option<seq<string>>)

  /** `SchemaDefinition`, in property order. */
  type Schema = seq<(string, SchemaField)>

  /** The argument of `parse`, which is checked with `typeof json !== "string"`. */
  datatype RawInput = NotAString | JsonText(text: string)

  const NotAStringMessage := "Agent output must be a JSON string."
  const InvalidJsonMessage := "Agent output must be valid JSON."
  const NotAnObjectMessage := "Agent output must be a JSON object."

  function MissingFieldMessage(name: string): string {
    "Missing required field: " + name
  }

  /** `Field "<name>" <what>`. */
  function FieldMessage(name: string, what: string): string {
    "Field \"" + name + "\" " + what
  }

  /** `isObject`: not null, an object, not an array. */
  predicate IsObject(v: Json) {
    v.JObject?
  }

  /** `"<s>"`. */
  function Quote(s: string): string {
    "\"" + s + "\""
  }

  function QuoteAll(options: seq<string>): (r: seq<string>)
    ensures |r| == |options| && forall i :: 0 <= i < |options| ==> r[i] == Quote(options[i])
  {
    if options == [] then [] else [Quote(options[0])] + QuoteAll(options[1..])
  }

  function Reverse<T>(s: seq<T>): (r: seq<T>)
    ensures |r| == |s| && forall i :: 0 <= i < |s| ==> r[i] == s[|s| - 1 - i]
  {
    if s == [] then [] else Reverse(s[1..]) + [s[0]]
  }

  /**
   * `formatEnumOptions`: one option is quoted alone; otherwise the reversed
   * list is split into its head (the last option) and the rest, which is
   * reversed back. An empty list leaves `last` undefined.
   */
  function FormatEnumOptions(options: seq<string>): string {
    if |options| == 1 then Quote(options[0])
    else
      var reversed := Reverse(options);
      var last := if reversed == [] then "undefined" else reversed[0];
      var rest := if reversed == [] then [] else Reverse(reversed[1..]);
      Join(QuoteAll(rest), ", ") + ", or " + Quote(last)
  }

  /** Several options read `"a", "b", or "c"` in their original order; none reads `, or "undefined"`. */
  lemma FormatEnumOptionsShape(options: seq<string>)
    ensures |options| >= 2 ==>
      FormatEnumOptions(options) == Join(QuoteAll(options[..|options| - 1]), ", ") + ", or " + Quote(options[|options| - 1])
    ensures options == [] ==> FormatEnumOptions(options) == ", or \"undefined\""
  {
    if |options| >= 2 {
      var reversed := Reverse(options);
      assert Reverse(reversed[1..]) == options[..|options| - 1];
    }
  }

  /** `enforceMaxLines`: absent and 0 impose no limit; the line count is the number of `\r?\n`-separated pieces. */
  function MaxLinesError(content: string, name: string, maxLines: Option<int>): Option<string> {
    if !HasLimit(maxLines) then None
    else if LineCount(content) > maxLines.value then
      Some(FieldMessage(name, "exceeds maxLines (" + IntToString(maxLines.value) + ")."))
    else None
  }

  /** A limit is exceeded exactly when there are at least as many line feeds as the limit. */
  lemma MaxLinesCountsLineFeeds(content: string, name: string, maxLines: Option<int>)
    ensures MaxLinesError(content, name, maxLines).Some? <==> HasLimit(maxLines) && Count(content, '\n') >= maxLines.value
  {
    LineCountIsNewlinesPlusOne(content);
  }

  /** `required !== false`. */
  predicate IsRequired(spec: SchemaField) {
    spec.required != Some(false)
  }

  /** The value has the field's type, with no coercion. */
  predicate HasType(v: Json, t: FieldType) {
    match t
    case StringField => v.JString?
    case BooleanField => v.JBool?
    case StringArrayField => v.JArray? && forall i :: 0 <= i < |v.items| ==> v.items[i].JString?
  }

  /** `validateField`: the error it throws, if any. */
  function FieldError(members: seq<(string, Json)>, name: string, spec: SchemaField): Option<string> {
    match Get(members, name)
    case None => if IsRequired(spec) then Some(MissingFieldMessage(name)) else None
    case Some(v) =>
      if v.JNull? then
        if IsRequired(spec) then Some(MissingFieldMessage(name)) else None
      else
        match spec.fieldType
        case StringField =>
          if !v.JString? then Some(FieldMessage(name, "must be a string."))
          else if spec.enumValues.Some? && v.s !in spec.enumValues.value then
            Some(FieldMessage(name, "must be one of " + FormatEnumOptions(spec.enumValues.value) + "."))
          else MaxLinesError(v.s, name, spec.maxLines)
        case BooleanField =>
          if !v.JBool? then Some(FieldMessage(name, "must be a boolean.")) else None
        case StringArrayField =>
          if !HasType(v, StringArrayField) then Some(FieldMessage(name, "must be an array of strings.")) else None
  }

  /**
   * What a field that passes holds: a required field is present and not
   * null; a present non-null value has the declared type, is one of the
   * enumeration when there is one, and keeps to the line limit. Both
   * directions.
   */
  lemma FieldErrorNoneIff(members: seq<(string, Json)>, name: string, spec: SchemaField)
    ensures FieldError(members, name, spec).None? <==>
      var v := Get(members, name);
      (IsRequired(spec) ==> v.Some? && !v.value.JNull?) &&
      (v.Some? && !v.value.JNull? ==>
        HasType(v.value, spec.fieldType) &&
        (spec.fieldType.StringField? ==>
          (spec.enumValues.Some? ==> v.value.s in spec.enumValues.value) &&
          MaxLinesError(v.value.s, name, spec.maxLines).None?))
  {
  }

  /** A required field that is absent or null is reported missing, whatever its type. */
  lemma RequiredFieldMissing(members: seq<(string, Json)>, name: string, spec: SchemaField)
    requires IsRequired(spec)
    requires Get(members, name).None? || Get(members, name) == Some(JNull)
    ensures FieldError(members, name, spec) == Some(MissingFieldMessage(name))
  {
  }

  /** An optional field that is absent or null is skipped, whatever its type and limits. */
  lemma OptionalFieldSkipped(members: seq<(string, Json)>, name: string, spec: SchemaField)
    requires !IsRequired(spec)
    requires Get(members, name).None? || Get(members, name) == Some(JNull)
    ensures FieldError(members, name, spec) == None
  {
  }

  /** A string outside the enumeration is reported as such even when it also breaks the line limit. */
  lemma EnumCheckedBeforeLines(members: seq<(string, Json)>, name: string, spec: SchemaField, s: string)
    requires spec.fieldType == StringField && spec.enumValues.Some? && s !in spec.enumValues.value
    requires Get(members, name) == Some(JString(s))
    ensures FieldError(members, name, spec) == Some(FieldMessage(name, "must be one of " + FormatEnumOptions(spec.enumValues.value) + "."))
  {
  }

  /** The first failing field's error, fields taken in schema order. */
  function FirstFieldError(members: seq<(string, Json)>, schema: Schema): Option<string> {
    if schema == [] then None
    else
      match FieldError(members, schema[0].0, schema[0].1)
      case Some(e) => Some(e)
      case None => FirstFieldError(members, schema[1..])
  }

  /** Field `k` fails and every field before it passes. */
  predicate FirstFailing(members: seq<(string, Json)>, schema: Schema, k: int) {
    0 <= k < |schema| && FieldError(members, schema[k].0, schema[k].1).Some? &&
    forall j :: 0 <= j < k ==> FieldError(members, schema[j].0, schema[j].1).None?
  }

  /** No error is reported exactly when every field passes; otherwise it is the error of the first field that fails. */
  lemma {:induction false} FirstFieldErrorIsFirst(members: seq<(string, Json)>, schema: Schema)
    ensures FirstFieldError(members, schema).None? <==>
      forall k :: 0 <= k < |schema| ==> FieldError(members, schema[k].0, schema[k].1).None?
    ensures FirstFieldError(members, schema).Some? ==>
      exists k :: FirstFailing(members, schema, k) && FirstFieldError(members, schema) == FieldError(members, schema[k].0, schema[k].1)
    decreases |schema|
  {
    if schema != [] {
      var tail := schema[1..];
      FirstFieldErrorIsFirst(members, tail);
      if FieldError(members, schema[0].0, schema[0].1).Some? {
        assert FirstFailing(members, schema, 0);
      } else {
        assert forall k :: 1 <= k < |schema| ==> schema[k] == tail[k - 1];
        if FirstFieldError(members, tail).Some? {
          var k :| FirstFailing(members, tail, k) && FirstFieldError(members, tail) == FieldError(members, tail[k].0, tail[k].1);
          assert FirstFailing(members, schema, k + 1);
        }
      }
    }
  }

  /** What `parse` returns or throws. */
  function Parsed(schema: Schema, input: RawInput, parseJson: string -> Option<Json>): Result<Json> {
    match input
    case NotAString => Err(NotAStringMessage)
    case JsonText(text) =>
      match parseJson(text)
      case None => Err(InvalidJsonMessage)
      case Some(v) =>
        if !IsObject(v) then Err(NotAnObjectMessage)
        else
          match FirstFieldError(v.members, schema)
          case Some(e) => Err(e)
          case None => Ok(v)
  }

  /** `SchemaValidator.parse`: the checks in order, then the fields in schema order. */
  method Parse(schema: Schema, input: RawInput, parseJson: string -> Option<Json>) returns (r: Result<Json>)
    ensures r == Parsed(schema, input, parseJson)
  {
    if input.NotAString? {
      return Err(NotAStringMessage);
    }
    var parsed := parseJson(input.text);
    if parsed.None? {
      return Err(InvalidJsonMessage);
    }
    if !IsObject(parsed.value) {
      return Err(NotAnObjectMessage);
    }
    var record := parsed.value.members;
    var k := 0;
    while k < |schema|
      invariant k <= |schema|
      invariant FirstFieldError(record, schema) == FirstFieldError(record, schema[k..])
    {
      var error := FieldError(record, schema[k].0, schema[k].1);
      assert schema[k..][1..] == schema[k + 1..];
      if error.Some? {
        return Err(error.value);
      }
      k := k + 1;
    }
    return Ok(parsed.value);
  }

  /**
   * `parse` succeeds exactly when the input is JSON text of an object every
   * schema field of which passes, and then returns that object unchanged.
   */
  lemma ParsedOkIff(schema: Schema, input: RawInput, parseJson: string -> Option<Json>)
    ensures Parsed(schema, input, parseJson).Ok? <==>
      input.JsonText? && parseJson(input.text).Some? && IsObject(parseJson(input.text).value) &&
      forall k :: 0 <= k < |schema| ==> FieldError(parseJson(input.text).value.members, schema[k].0, schema[k].1).None?
    ensures Parsed(schema, input, parseJson).Ok? ==> Some(Parsed(schema, input, parseJson).value) == parseJson(input.text)
  {
    if input.JsonText? && parseJson(input.text).Some? && IsObject(parseJson(input.text).value) {
      FirstFieldErrorIsFirst(parseJson(input.text).value.members, schema);
    }
  }

  /** A failure on an object is the error of the first field, in schema order, that fails. */
  lemma ParsedReportsFirstFailingField(schema: Schema, text: string, parseJson: string -> Option<Json>)
    requires parseJson(text).Some? && IsObject(parseJson(text).value)
    requires Parsed(schema, JsonText(text), parseJson).Err?
    ensures var members := parseJson(text).value.members;
      exists k :: FirstFailing(members, schema, k) &&
        Some(Parsed(schema, JsonText(text), parseJson).msg) == FieldError(members, schema[k].0, schema[k].1)
  {
    FirstFieldErrorIsFirst(parseJson(text).value.members, schema);
  }
}
