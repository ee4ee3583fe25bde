/** The validator fails closed: what it accepts, it has understood. */
module SchemaRefusals {
  import opened Json
  import opened SchemaValidator

  /** The schemas to combine, if the keyword is there, are a list of at least one object. */
  predicate ListsSchemas(schema: Json, name: string)
    requires schema.JObject?
  {
    Has(schema, name) ==>
      && At(schema, name).JArray? && At(schema, name).items != []
      && forall k :: 0 <= k < |At(schema, name).items| ==> At(schema, name).items[k].JObject?
  }

  /** No reference, and the keywords that every value is held to are what they should be. */
  predicate HeadIsUnderstood(schema: Json)
    requires schema.JObject?
  {
    && !Has(schema, "$ref") && TypeIsSupported(schema) && (Has(schema, "enum") ==> At(schema, "enum").JArray?)
    && ListsSchemas(schema, "allOf") && ListsSchemas(schema, "anyOf") && ListsSchemas(schema, "oneOf")
  }

  /** Every keyword that the validator turns to for this value is one it knows and of the right kind, here and wherever it goes on. */
  ghost predicate Understood(value: Json, schema: Json, regex: Regex)
    decreases schema, 3
  {
    && schema.JObject? && HeadIsUnderstood(schema)
    && (Has(schema, "allOf") ==> forall k :: 0 <= k < |At(schema, "allOf").items| ==> Understood(value, At(schema, "allOf").items[k], regex))
    && (Has(schema, "anyOf") ==> exists k :: 0 <= k < |At(schema, "anyOf").items| && Understood(value, At(schema, "anyOf").items[k], regex))
    && (Has(schema, "oneOf") ==> exists k :: 0 <= k < |At(schema, "oneOf").items| && Understood(value, At(schema, "oneOf").items[k], regex))
    && ShapeIsUnderstood(value, schema, regex)
  }

  ghost predicate ShapeIsUnderstood(value: Json, schema: Json, regex: Regex)
    requires schema.JObject?
    decreases schema, 2
  {
    match value
    case JNull => true
    case JBool(_) => true
    case JInt(_) => NumberIfAny(schema, "minimum") && NumberIfAny(schema, "maximum")
    case JFloat(_) => NumberIfAny(schema, "minimum") && NumberIfAny(schema, "maximum")
    case JString(_) =>
      && NumberIfAny(schema, "minLength") && NumberIfAny(schema, "maxLength")
      && (Has(schema, "pattern") ==> At(schema, "pattern").JString? && regex.compiles(At(schema, "pattern").text))
    case JArray(items) =>
      && NumberIfAny(schema, "minItems") && NumberIfAny(schema, "maxItems")
      && (Has(schema, "items") ==> forall i :: 0 <= i < |items| ==> Understood(items[i], At(schema, "items"), regex))
    case JObject(members) =>
      && (Has(schema, "properties") ==> At(schema, "properties").JObject?)
      && (Has(schema, "required") ==> At(schema, "required").JArray? && AllStrings(At(schema, "required").items))
      && forall i :: 0 <= i < |members| ==> MemberIsUnderstood(members[i], schema, regex)
  }

  /** A declared property has a schema, and any other one is allowed by a flag or has a schema too. */
  ghost predicate MemberIsUnderstood(member: Member, schema: Json, regex: Regex)
    requires schema.JObject? && (Has(schema, "properties") ==> At(schema, "properties").JObject?)
    decreases schema, 1
  {
    if Has(schema, "properties") && Has(At(schema, "properties"), member.name) then
      Understood(member.value, At(At(schema, "properties"), member.name), regex)
    else
      Has(schema, "additionalProperties") ==>
        At(schema, "additionalProperties") == JBool(true) || Understood(member.value, At(schema, "additionalProperties"), regex)
  }

  lemma {:induction false} FirstHolds(verdicts: seq<Verdict>, k: nat)
    requires First(verdicts) == Valid && k < |verdicts|
    ensures verdicts[k] == Valid
    decreases |verdicts|
  {
    var last := |verdicts| - 1;
    if k < last {
      FirstHolds(verdicts[..last], k);
    }
  }

  lemma {:induction false} CountedHolds(verdicts: seq<Verdict>) returns (k: nat)
    requires Matches(verdicts).Count? && Matches(verdicts).n > 0
    ensures k < |verdicts| && verdicts[k] == Valid
    decreases |verdicts|
  {
    k := |verdicts| - 1;
    if verdicts[k] != Valid {
      k := CountedHolds(verdicts[..k]);
    }
  }

  lemma AllAreUnderstood(value: Json, schema: Json, regex: Regex)
    requires schema.JObject? && Has(schema, "allOf") && CombinatorVerdict(value, schema, "allOf", regex) == Valid
    ensures ListsSchemas(schema, "allOf")
    ensures forall k :: 0 <= k < |At(schema, "allOf").items| ==> Understood(value, At(schema, "allOf").items[k], regex)
    decreases schema, 2
  {
    var options := At(schema, "allOf").items;
    var verdicts := Verdicts(value, options, regex);
    forall k | 0 <= k < |options|
      ensures Understood(value, options[k], regex)
    {
      FirstHolds(verdicts, k);
      AcceptedIsUnderstood(value, options[k], regex);
    }
  }

  lemma SomeIsUnderstood(value: Json, schema: Json, name: string, regex: Regex)
    requires schema.JObject? && (name == "anyOf" || name == "oneOf") && Has(schema, name)
    requires CombinatorVerdict(value, schema, name, regex) == Valid
    ensures ListsSchemas(schema, name)
    ensures exists k :: 0 <= k < |At(schema, name).items| && Understood(value, At(schema, name).items[k], regex)
    decreases schema, 2
  {
    var options := At(schema, name).items;
    var k := CountedHolds(Verdicts(value, options, regex));
    AcceptedIsUnderstood(value, options[k], regex);
  }

  lemma MembersAreUnderstood(members: seq<Member>, schema: Json, regex: Regex)
    requires schema.JObject? && ObjectVerdict(members, schema, regex) == Valid
    ensures ShapeIsUnderstood(JObject(members), schema, regex)
    decreases schema, 2
  {
    forall i | 0 <= i < |members|
      ensures MemberIsUnderstood(members[i], schema, regex)
    {
      FirstHolds(MemberVerdicts(members, schema, regex), i);
      if Has(schema, "properties") && Has(At(schema, "properties"), members[i].name) {
        AcceptedIsUnderstood(members[i].value, At(At(schema, "properties"), members[i].name), regex);
      } else if Has(schema, "additionalProperties") && At(schema, "additionalProperties").JObject? {
        AcceptedIsUnderstood(members[i].value, At(schema, "additionalProperties"), regex);
      }
    }
  }

  lemma ItemsAreUnderstood(items: seq<Json>, schema: Json, regex: Regex)
    requires schema.JObject? && ArrayVerdict(items, schema, regex) == Valid
    ensures ShapeIsUnderstood(JArray(items), schema, regex)
    decreases schema, 2
  {
    if Has(schema, "items") {
      forall i | 0 <= i < |items|
        ensures Understood(items[i], At(schema, "items"), regex)
      {
        FirstHolds(ItemVerdicts(items, At(schema, "items"), regex), i);
        AcceptedIsUnderstood(items[i], At(schema, "items"), regex);
      }
    }
  }

  /** Accepting goes through every check. */
  lemma AcceptedPassed(value: Json, schema: Json, regex: Regex)
    requires schema.JObject? && Validate(value, schema, regex) == Valid
    ensures !Has(schema, "$ref") && ValueVerdict(value, schema) == Valid && ShapeVerdict(value, schema, regex) == Valid
    ensures CombinatorVerdict(value, schema, "allOf", regex) == Valid
    ensures CombinatorVerdict(value, schema, "anyOf", regex) == Valid
    ensures CombinatorVerdict(value, schema, "oneOf", regex) == Valid
  {
  }

  lemma HeadsAreUnderstood(value: Json, schema: Json, regex: Regex)
    requires schema.JObject? && Validate(value, schema, regex) == Valid
    ensures HeadIsUnderstood(schema)
  {
    AcceptedPassed(value, schema, regex);
    TypeNamesMeanKinds(value, if Get(schema, "type").JString? then Get(schema, "type").text else []);
  }

  lemma ShapesAreUnderstood(value: Json, schema: Json, regex: Regex)
    requires schema.JObject? && ShapeVerdict(value, schema, regex) == Valid
    ensures ShapeIsUnderstood(value, schema, regex)
    decreases schema, 3
  {
    match value
    case JObject(members) => MembersAreUnderstood(members, schema, regex);
    case JArray(items) => ItemsAreUnderstood(items, schema, regex);
    case _ =>
  }

  /** Whatever the schema looks like: a value is accepted only by what the validator understands; a reference, for one, is never passed over. */
  lemma AcceptedIsUnderstood(value: Json, schema: Json, regex: Regex)
    requires schema.JObject? && Validate(value, schema, regex) == Valid
    ensures Understood(value, schema, regex)
    decreases schema, 4
  {
    AcceptedPassed(value, schema, regex);
    HeadsAreUnderstood(value, schema, regex);
    ShapesAreUnderstood(value, schema, regex);
    if Has(schema, "allOf") {
      AllAreUnderstood(value, schema, regex);
    }
    if Has(schema, "anyOf") {
      SomeIsUnderstood(value, schema, "anyOf", regex);
    }
    if Has(schema, "oneOf") {
      SomeIsUnderstood(value, schema, "oneOf", regex);
    }
  }

  /** A schema with a reference is a bad one, for every value and for all tool arguments. */
  lemma ReferencesAreRefused(value: Json, schema: Json, regex: Regex)
    requires schema.JObject? && Has(schema, "$ref")
    ensures Validate(value, schema, regex) == BadSchema
    ensures value.JObject? ==> ValidateArguments(value, schema, regex) == BadSchema
  {
    OnlyTypeIsAdded(schema, "$ref");
  }
}
