/** Validating tool arguments against a schema, and what a schema means. */
module SchemaValidator {
  import opened Json

  /** Accepted, refused as a value, or refused because the schema is malformed. */
  datatype Verdict = Valid | Invalid | BadSchema

  /** The first exception wins. */
  function Then(first: Verdict, second: Verdict): Verdict { if first == Valid then second else first }

  function Check(holds: bool): Verdict { if holds then Valid else Invalid }

  /** The regular-expression library: which patterns compile, and which texts they are found in. */
  datatype Regex = Regex(compiles: string -> bool, found: (string, string) -> bool)

  const SUPPORTED_TYPES: set<string> := {"array", "boolean", "integer", "null", "number", "object", "string"}

  predicate MatchesType(value: Json, expected: string) {
    match expected
    case "object" => value.JObject?
    case "array" => value.JArray?
    case "string" => value.JString?
    case "boolean" => value.JBool?
    case "integer" => value.JInt?
    case "number" => IsNumber(value)
    case "null" => value.JNull?
    case _ => false
  }

  // ---------------------------------------------------------------------------------------
  // The validator.

  function TypeVerdict(value: Json, schema: Json): Verdict
    requires schema.JObject?
  {
    var expected := Get(schema, "type");
    if expected.JNull? then Valid
    else if !expected.JString? || expected.text !in SUPPORTED_TYPES then BadSchema
    else Check(MatchesType(value, expected.text))
  }

  function ConstVerdict(value: Json, schema: Json): Verdict
    requires schema.JObject?
  {
    if Has(schema, "const") then Check(Equal(value, At(schema, "const"))) else Valid
  }

  predicate InEnum(value: Json, allowed: seq<Json>) { exists i :: 0 <= i < |allowed| && Equal(value, allowed[i]) }

  function EnumVerdict(value: Json, schema: Json): Verdict
    requires schema.JObject?
  {
    if !Has(schema, "enum") then Valid
    else if !At(schema, "enum").JArray? then BadSchema
    else Check(InEnum(value, At(schema, "enum").items))
  }

  function LimitVerdict(schema: Json, name: string, holds: real -> bool): Verdict
    requires schema.JObject?
  {
    if !Has(schema, name) then Valid
    else if !IsNumber(At(schema, name)) then BadSchema
    else Check(holds(Amount(At(schema, name))))
  }

  function BoundVerdict(amount: real, schema: Json, lower: string, upper: string): Verdict
    requires schema.JObject?
  {
    Then(LimitVerdict(schema, lower, limit => amount >= limit), LimitVerdict(schema, upper, limit => amount <= limit))
  }

  function StringVerdict(text: string, schema: Json, regex: Regex): Verdict
    requires schema.JObject?
  {
    Then(BoundVerdict(|text| as real, schema, "minLength", "maxLength"),
         if !Has(schema, "pattern") then Valid
         else if !At(schema, "pattern").JString? || !regex.compiles(At(schema, "pattern").text) then BadSchema
         else Check(regex.found(At(schema, "pattern").text, text)))
  }

  /** The checks that compare the value with the schema's own entries. */
  function ValueVerdict(value: Json, schema: Json): Verdict
    requires schema.JObject?
  {
    Then(TypeVerdict(value, schema), Then(ConstVerdict(value, schema), EnumVerdict(value, schema)))
  }

  /** The first verdict that is not Valid. */
  function First(verdicts: seq<Verdict>): Verdict {
    if verdicts == [] then Valid else Then(First(verdicts[..|verdicts| - 1]), verdicts[|verdicts| - 1])
  }

  /** How many alternatives match; none to report once an alternative is malformed. */
  datatype Tally = Broken | Count(n: nat)

  function Matches(verdicts: seq<Verdict>): Tally {
    if verdicts == [] then Count(0)
    else
      var earlier := Matches(verdicts[..|verdicts| - 1]);
      if earlier == Broken then Broken
      else
        match verdicts[|verdicts| - 1]
        case BadSchema => Broken
        case Invalid => earlier
        case Valid => Count(earlier.n + 1)
  }

  function Validate(value: Json, schema: Json, regex: Regex): Verdict
    requires schema.JObject?
    decreases schema, 3
  {
    if Has(schema, "$ref") then BadSchema
    else Then(CombinatorsVerdict(value, schema, regex), Then(ValueVerdict(value, schema), ShapeVerdict(value, schema, regex)))
  }

  function CombinatorsVerdict(value: Json, schema: Json, regex: Regex): Verdict
    requires schema.JObject?
    decreases schema, 2
  {
    Then(CombinatorVerdict(value, schema, "allOf", regex),
    Then(CombinatorVerdict(value, schema, "anyOf", regex),
         CombinatorVerdict(value, schema, "oneOf", regex)))
  }

  predicate AreSchemas(alternatives: Json) {
    alternatives.JArray? && alternatives.items != [] && AreObjects(alternatives.items)
  }

  predicate AreObjects(schemas: seq<Json>) { forall k :: 0 <= k < |schemas| ==> schemas[k].JObject? }

  function CombinatorVerdict(value: Json, schema: Json, name: string, regex: Regex): Verdict
    requires schema.JObject?
    decreases schema, 1
  {
    if !Has(schema, name) then Valid
    else if !AreSchemas(At(schema, name)) then BadSchema
    else Combine(name, Verdicts(value, At(schema, name).items, regex))
  }

  /** What a combinator makes of its alternatives' verdicts. */
  function Combine(name: string, verdicts: seq<Verdict>): Verdict {
    if name == "allOf" then First(verdicts)
    else
      match Matches(verdicts)
      case Broken => BadSchema
      case Count(n) => Check(if name == "anyOf" then n > 0 else n == 1)
  }

  function Verdicts(value: Json, schemas: seq<Json>, regex: Regex): (verdicts: seq<Verdict>)
    requires AreObjects(schemas)
    ensures |verdicts| == |schemas| && forall k :: 0 <= k < |schemas| ==> verdicts[k] == Validate(value, schemas[k], regex)
    decreases schemas
  {
    seq(|schemas|, k requires 0 <= k < |schemas| => Validate(value, schemas[k], regex))
  }

  /** The checks that depend on the value's kind. */
  function ShapeVerdict(value: Json, schema: Json, regex: Regex): Verdict
    requires schema.JObject?
    decreases schema, 2
  {
    match value
    case JObject(members) => ObjectVerdict(members, schema, regex)
    case JArray(items) => ArrayVerdict(items, schema, regex)
    case JString(text) => StringVerdict(text, schema, regex)
    case JInt(_) => BoundVerdict(Amount(value), schema, "minimum", "maximum")
    case JFloat(_) => BoundVerdict(Amount(value), schema, "minimum", "maximum")
    case JNull => Valid
    case JBool(_) => Valid
  }

  predicate AreNames(names: Json) {
    names.JArray? && forall i :: 0 <= i < |names.items| ==> names.items[i].JString?
  }

  predicate HasAll(members: seq<Member>, names: seq<Json>)
    requires forall i :: 0 <= i < |names| ==> names[i].JString?
  {
    forall i :: 0 <= i < |names| ==> Find(members, names[i].text) < |members|
  }

  function ObjectVerdict(members: seq<Member>, schema: Json, regex: Regex): Verdict
    requires schema.JObject?
    decreases schema, 1
  {
    if Has(schema, "properties") && !At(schema, "properties").JObject? then BadSchema
    else if Has(schema, "required") && !AreNames(At(schema, "required")) then BadSchema
    else if Has(schema, "required") && !HasAll(members, At(schema, "required").items) then Invalid
    else First(MemberVerdicts(members, schema, regex))
  }

  predicate PropertiesAreObject(schema: Json)
    requires schema.JObject?
  {
    Has(schema, "properties") ==> At(schema, "properties").JObject?
  }

  /** The schema declares this property. */
  predicate Declares(schema: Json, name: string)
    requires schema.JObject? && PropertiesAreObject(schema)
  {
    Has(schema, "properties") && Has(At(schema, "properties"), name)
  }

  function MemberVerdicts(members: seq<Member>, schema: Json, regex: Regex): (verdicts: seq<Verdict>)
    requires schema.JObject? && PropertiesAreObject(schema)
    ensures |verdicts| == |members| && forall i :: 0 <= i < |members| ==> verdicts[i] == MemberVerdict(members[i], schema, regex)
    decreases schema, 0, 1
  {
    seq(|members|, i requires 0 <= i < |members| => MemberVerdict(members[i], schema, regex))
  }

  function MemberVerdict(member: Member, schema: Json, regex: Regex): Verdict
    requires schema.JObject? && PropertiesAreObject(schema)
    decreases schema, 0, 0
  {
    if Declares(schema, member.name) then
      var child := At(At(schema, "properties"), member.name);
      if child.JObject? then Validate(member.value, child, regex) else BadSchema
    else if !Has(schema, "additionalProperties") then Valid
    else
      var additional := At(schema, "additionalProperties");
      if additional.JBool? then Check(additional.flag)
      else if additional.JObject? then Validate(member.value, additional, regex)
      else BadSchema
  }

  function ArrayVerdict(items: seq<Json>, schema: Json, regex: Regex): Verdict
    requires schema.JObject?
    decreases schema, 1
  {
    Then(BoundVerdict(|items| as real, schema, "minItems", "maxItems"),
         if !Has(schema, "items") then Valid
         else if !At(schema, "items").JObject? then BadSchema
         else First(ItemVerdicts(items, At(schema, "items"), regex)))
  }

  function ItemVerdicts(items: seq<Json>, schema: Json, regex: Regex): (verdicts: seq<Verdict>)
    requires schema.JObject?
    ensures |verdicts| == |items| && forall i :: 0 <= i < |items| ==> verdicts[i] == Validate(items[i], schema, regex)
    decreases schema, 4
  {
    seq(|items|, i requires 0 <= i < |items| => Validate(items[i], schema, regex))
  }

  // ---------------------------------------------------------------------------------------
  // What a schema means.

  predicate Alternatives(schema: Json, name: string, regex: Regex)
    requires schema.JObject?
    decreases schema, 0
  {
    Has(schema, name) ==>
      var alternatives := At(schema, name);
      && alternatives.JArray? && alternatives.items != []
      && forall k :: 0 <= k < |alternatives.items| ==> WellFormed(alternatives.items[k], regex)
  }

  predicate NumberIfAny(schema: Json, name: string)
    requires schema.JObject?
  {
    Has(schema, name) ==> IsNumber(At(schema, name))
  }

  predicate TypeIsSupported(schema: Json)
    requires schema.JObject?
  {
    Get(schema, "type").JNull? || (Get(schema, "type").JString? && KindsNamed(Get(schema, "type").text) != {})
  }

  predicate AllStrings(names: seq<Json>) { forall i :: 0 <= i < |names| ==> names[i].JString? }

  predicate LeavesAreWellFormed(schema: Json, regex: Regex)
    requires schema.JObject?
  {
    && !Has(schema, "$ref")
    && TypeIsSupported(schema)
    && (Has(schema, "enum") ==> At(schema, "enum").JArray?)
    && (Has(schema, "required") ==> At(schema, "required").JArray? && AllStrings(At(schema, "required").items))
    && NumberIfAny(schema, "minimum") && NumberIfAny(schema, "maximum")
    && NumberIfAny(schema, "minLength") && NumberIfAny(schema, "maxLength")
    && NumberIfAny(schema, "minItems") && NumberIfAny(schema, "maxItems")
    && (Has(schema, "pattern") ==> At(schema, "pattern").JString? && regex.compiles(At(schema, "pattern").text))
  }

  /** Every supported keyword has a value of its kind, here and in every schema inside. */
  predicate WellFormed(schema: Json, regex: Regex)
    decreases schema, 1
  {
    && schema.JObject?
    && LeavesAreWellFormed(schema, regex)
    && Alternatives(schema, "allOf", regex) && Alternatives(schema, "anyOf", regex) && Alternatives(schema, "oneOf", regex)
    && (Has(schema, "properties") ==>
          && At(schema, "properties").JObject?
          && var children := At(schema, "properties").members;
             forall k :: 0 <= k < |children| ==> WellFormed(children[k].value, regex))
    && (Has(schema, "additionalProperties") ==>
          At(schema, "additionalProperties").JBool? || WellFormed(At(schema, "additionalProperties"), regex))
    && (Has(schema, "items") ==> WellFormed(At(schema, "items"), regex))
  }

  predicate Exceeds(schema: Json, amount: real, lower: string, upper: string)
    requires schema.JObject? && NumberIfAny(schema, lower) && NumberIfAny(schema, upper)
  {
    || (Has(schema, lower) && amount < Amount(At(schema, lower)))
    || (Has(schema, upper) && amount > Amount(At(schema, upper)))
  }

  /** What a JSON value is, by how it is written. */
  datatype Kind = Null | Boolean | Integer | Fractional | Text | Array | Object

  function KindOf(value: Json): Kind {
    match value
    case JNull => Null
    case JBool(_) => Boolean
    case JInt(_) => Integer
    case JFloat(_) => Fractional
    case JString(_) => Text
    case JArray(_) => Array
    case JObject(_) => Object
  }

  /** The kinds that a type name stands for in the code. */
  function KindsNamed(name: string): set<Kind> {
    if name == "null" then {Null}
    else if name == "boolean" then {Boolean}
    else if name == "integer" then {Integer}
    else if name == "number" then {Integer, Fractional}
    else if name == "string" then {Text}
    else if name == "array" then {Array}
    else if name == "object" then {Object}
    else {}
  }

  /** An integer as the standard counts it: a float without fraction is one. */
  predicate IsWhole(value: Json) { value.JInt? || (value.JFloat? && value.number == value.number.Floor as real) }

  /** The types of JSON Schema Validation, section 6.1.1. */
  predicate IsOfStandardType(value: Json, name: string) {
    var kind := KindOf(value);
    || (name == "null" && kind == Null) || (name == "boolean" && kind == Boolean) || (name == "object" && kind == Object)
    || (name == "array" && kind == Array) || (name == "string" && kind == Text)
    || (name == "number" && (kind == Integer || kind == Fractional))
    || (name == "integer" && IsWhole(value))
  }

  /** The code goes by the way a value is written; the standard counts every number without fraction as an integer. */
  predicate IsOfType(value: Json, expected: string, strict: bool) {
    if strict then IsOfStandardType(value, expected) else KindOf(value) in KindsNamed(expected)
  }

  lemma TypeNamesMeanKinds(value: Json, name: string)
    ensures MatchesType(value, name) <==> KindOf(value) in KindsNamed(name)
  {
  }

  predicate AreEqual(a: Json, b: Json, strict: bool) { if strict then StrictlyEqual(a, b) else Equal(a, b) }

  predicate IsAmong(value: Json, allowed: seq<Json>, strict: bool) {
    exists i :: 0 <= i < |allowed| && AreEqual(value, allowed[i], strict)
  }

  /** The value's type, constant and enumeration, as the code compares them or strictly as the standard does. */
  predicate ValueHolds(value: Json, schema: Json, regex: Regex, strict: bool)
    requires schema.JObject? && LeavesAreWellFormed(schema, regex)
  {
    && (Get(schema, "type").JString? ==> IsOfType(value, Get(schema, "type").text, strict))
    && (Has(schema, "const") ==> AreEqual(value, At(schema, "const"), strict))
    && (Has(schema, "enum") ==> IsAmong(value, At(schema, "enum").items, strict))
  }

  predicate AllWellFormed(schemas: seq<Json>, regex: Regex) {
    forall k :: 0 <= k < |schemas| ==> WellFormed(schemas[k], regex)
  }

  /** The schemas a combinator lists. */
  function Options(schema: Json, name: string, regex: Regex): (options: seq<Json>)
    requires schema.JObject? && Has(schema, name) && Alternatives(schema, name, regex)
    ensures AllWellFormed(options, regex) && options == At(schema, name).items
  {
    At(schema, name).items
  }

  predicate AllTrue(truths: seq<bool>) { forall k :: 0 <= k < |truths| ==> truths[k] }

  predicate SomeTrue(truths: seq<bool>) { exists k :: 0 <= k < |truths| && truths[k] }

  predicate OneTrue(truths: seq<bool>) {
    exists k :: 0 <= k < |truths| && truths[k] && forall j :: 0 <= j < |truths| && j != k ==> !truths[j]
  }

  /** The value satisfies every keyword of the schema: as the code understands types and constants, or strictly as the standard does. */
  ghost predicate Satisfies(value: Json, schema: Json, regex: Regex, strict: bool)
    requires WellFormed(schema, regex)
    decreases schema, 3
  {
    CombinatorsHold(value, schema, regex, strict) && ValueHolds(value, schema, regex, strict) && ShapeHolds(value, schema, regex, strict)
  }

  /** Which of the schemas the value satisfies. */
  ghost function Truths(value: Json, schemas: seq<Json>, regex: Regex, strict: bool): (truths: seq<bool>)
    requires AllWellFormed(schemas, regex)
    ensures |truths| == |schemas| && forall k :: 0 <= k < |schemas| ==> truths[k] == Satisfies(value, schemas[k], regex, strict)
    decreases schemas
  {
    seq(|schemas|, k requires 0 <= k < |schemas| => Satisfies(value, schemas[k], regex, strict))
  }

  /** The value satisfies all of allOf, at least one of anyOf, and exactly one of oneOf. */
  ghost predicate CombinatorsHold(value: Json, schema: Json, regex: Regex, strict: bool)
    requires WellFormed(schema, regex)
    decreases schema, 1
  {
    && (Has(schema, "allOf") ==> AllTrue(Truths(value, Options(schema, "allOf", regex), regex, strict)))
    && (Has(schema, "anyOf") ==> SomeTrue(Truths(value, Options(schema, "anyOf", regex), regex, strict)))
    && (Has(schema, "oneOf") ==> OneTrue(Truths(value, Options(schema, "oneOf", regex), regex, strict)))
  }

  /** Every name is that of some member. */
  predicate HoldsAll(members: seq<Member>, names: seq<Json>)
    requires AllStrings(names)
  {
    forall i :: 0 <= i < |names| ==> exists k :: 0 <= k < |members| && members[k].name == names[i].text
  }

  ghost predicate ShapeHolds(value: Json, schema: Json, regex: Regex, strict: bool)
    requires WellFormed(schema, regex)
    decreases schema, 2
  {
    match value
    case JNull => true
    case JBool(_) => true
    case JInt(_) => !Exceeds(schema, Amount(value), "minimum", "maximum")
    case JFloat(_) => !Exceeds(schema, Amount(value), "minimum", "maximum")
    case JString(text) =>
      && !Exceeds(schema, |text| as real, "minLength", "maxLength")
      && (Has(schema, "pattern") ==> regex.found(At(schema, "pattern").text, text))
    case JArray(items) =>
      && !Exceeds(schema, |items| as real, "minItems", "maxItems")
      && (Has(schema, "items") ==> forall i :: 0 <= i < |items| ==> Satisfies(items[i], At(schema, "items"), regex, strict))
    case JObject(members) =>
      && (Has(schema, "required") ==> HoldsAll(members, At(schema, "required").items))
      && forall i :: 0 <= i < |members| ==> MemberHolds(members[i], schema, regex, strict)
  }

  /** A declared property satisfies its schema; another one is allowed, and satisfies the schema for such. */
  ghost predicate MemberHolds(member: Member, schema: Json, regex: Regex, strict: bool)
    requires WellFormed(schema, regex)
    decreases schema, 0
  {
    if Has(schema, "properties") && Has(At(schema, "properties"), member.name) then
      Satisfies(member.value, At(At(schema, "properties"), member.name), regex, strict)
    else
      Has(schema, "additionalProperties") ==>
        var additional := At(schema, "additionalProperties");
        if additional.JBool? then additional.flag else Satisfies(member.value, additional, regex, strict)
  }

  // ---------------------------------------------------------------------------------------
  // The validator decides what the schema means.

  /** Never a definition error, and accepted exactly when the condition holds. */
  predicate Decides(verdict: Verdict, condition: bool) {
    verdict != BadSchema && (verdict == Valid <==> condition)
  }

  predicate AllDecide(verdicts: seq<Verdict>, truths: seq<bool>) {
    |verdicts| == |truths| && forall k :: 0 <= k < |truths| ==> Decides(verdicts[k], truths[k])
  }

  lemma {:induction false} FirstDecides(verdicts: seq<Verdict>, truths: seq<bool>)
    requires AllDecide(verdicts, truths)
    ensures Decides(First(verdicts), AllTrue(truths))
  {
    if verdicts != [] {
      FirstDecides(verdicts[..|verdicts| - 1], truths[..|truths| - 1]);
    }
  }

  lemma SomeOfMore(truths: seq<bool>, truth: bool)
    ensures SomeTrue(truths + [truth]) <==> SomeTrue(truths) || truth
  {
    var more := truths + [truth];
    assert more[|truths|] == truth && forall k :: 0 <= k < |truths| ==> more[k] == truths[k];
    if SomeTrue(truths) {
      var k :| 0 <= k < |truths| && truths[k];
      assert more[k];
    }
  }

  lemma OneOfMore(truths: seq<bool>, truth: bool)
    ensures OneTrue(truths + [truth]) <==> if truth then !SomeTrue(truths) else OneTrue(truths)
  {
    var more := truths + [truth];
    assert more[|truths|] == truth && forall k :: 0 <= k < |truths| ==> more[k] == truths[k];
    if OneTrue(truths) {
      var k :| 0 <= k < |truths| && truths[k] && forall j :: 0 <= j < |truths| && j != k ==> !truths[j];
      assert more[k];
    }
    if OneTrue(more) {
      var k :| 0 <= k < |more| && more[k] && forall j :: 0 <= j < |more| && j != k ==> !more[j];
      assert k < |truths| ==> truths[k];
    }
  }

  /** The count so far, and one more alternative. */
  lemma CountOfMore(truths: seq<bool>, truth: bool, n: nat)
    requires (n > 0 <==> SomeTrue(truths)) && (n == 1 <==> OneTrue(truths))
    ensures var more := if truth then n + 1 else n;
            (more > 0 <==> SomeTrue(truths + [truth])) && (more == 1 <==> OneTrue(truths + [truth]))
  {
    SomeOfMore(truths, truth);
    OneOfMore(truths, truth);
  }

  /** The count is positive when some alternative holds, and one when exactly one does. */
  lemma {:induction false} MatchesCounts(verdicts: seq<Verdict>, truths: seq<bool>)
    requires AllDecide(verdicts, truths)
    ensures var tally := Matches(verdicts);
            tally.Count? && (tally.n > 0 <==> SomeTrue(truths)) && (tally.n == 1 <==> OneTrue(truths))
  {
    if verdicts != [] {
      var last := |truths| - 1;
      assert truths == truths[..last] + [truths[last]];
      MatchesCounts(verdicts[..last], truths[..last]);
      CountOfMore(truths[..last], truths[last], Matches(verdicts[..last]).n);
    }
  }

  lemma CombineDecides(name: string, verdicts: seq<Verdict>, truths: seq<bool>)
    requires AllDecide(verdicts, truths)
    ensures Decides(Combine(name, verdicts),
                    if name == "allOf" then AllTrue(truths) else if name == "anyOf" then SomeTrue(truths) else OneTrue(truths))
  {
    FirstDecides(verdicts, truths);
    MatchesCounts(verdicts, truths);
  }

  lemma OptionsDecide(value: Json, schemas: seq<Json>, regex: Regex)
    requires AllWellFormed(schemas, regex) && AreObjects(schemas)
    ensures AllDecide(Verdicts(value, schemas, regex), Truths(value, schemas, regex, false))
    decreases schemas
  {
    var verdicts, truths := Verdicts(value, schemas, regex), Truths(value, schemas, regex, false);
    forall k | 0 <= k < |schemas|
      ensures Decides(verdicts[k], truths[k])
    {
      ValidatorDecides(value, schemas[k], regex);
    }
  }

  lemma CombinatorDecides(value: Json, schema: Json, name: string, regex: Regex)
    requires schema.JObject? && Alternatives(schema, name, regex)
    ensures Decides(CombinatorVerdict(value, schema, name, regex),
                    Has(schema, name) ==>
                      var truths := Truths(value, Options(schema, name, regex), regex, false);
                      if name == "allOf" then AllTrue(truths) else if name == "anyOf" then SomeTrue(truths) else OneTrue(truths))
    decreases schema, 1
  {
    if Has(schema, name) {
      var options := Options(schema, name, regex);
      OptionsDecide(value, options, regex);
      CombineDecides(name, Verdicts(value, options, regex), Truths(value, options, regex, false));
    }
  }

  lemma CombinatorsDecide(value: Json, schema: Json, regex: Regex)
    requires WellFormed(schema, regex)
    ensures Decides(CombinatorsVerdict(value, schema, regex), CombinatorsHold(value, schema, regex, false))
    decreases schema, 2
  {
    CombinatorDecides(value, schema, "allOf", regex);
    CombinatorDecides(value, schema, "anyOf", regex);
    CombinatorDecides(value, schema, "oneOf", regex);
  }

  lemma TypeDecides(value: Json, schema: Json)
    requires schema.JObject? && TypeIsSupported(schema)
    ensures Decides(TypeVerdict(value, schema), Get(schema, "type").JString? ==> IsOfType(value, Get(schema, "type").text, false))
  {
    if Get(schema, "type").JString? {
      TypeNamesMeanKinds(value, Get(schema, "type").text);
    }
  }

  lemma ValueDecides(value: Json, schema: Json, regex: Regex)
    requires schema.JObject? && LeavesAreWellFormed(schema, regex)
    ensures Decides(ValueVerdict(value, schema), ValueHolds(value, schema, regex, false))
  {
    TypeDecides(value, schema);
  }

  lemma BoundDecides(amount: real, schema: Json, lower: string, upper: string)
    requires schema.JObject? && NumberIfAny(schema, lower) && NumberIfAny(schema, upper)
    ensures Decides(BoundVerdict(amount, schema, lower, upper), !Exceeds(schema, amount, lower, upper))
  {
  }

  lemma MemberDecides(member: Member, schema: Json, regex: Regex)
    requires WellFormed(schema, regex)
    ensures Decides(MemberVerdict(member, schema, regex), MemberHolds(member, schema, regex, false))
    decreases schema, 0
  {
    if Declares(schema, member.name) {
      ValidatorDecides(member.value, At(At(schema, "properties"), member.name), regex);
    } else if Has(schema, "additionalProperties") && At(schema, "additionalProperties").JObject? {
      ValidatorDecides(member.value, At(schema, "additionalProperties"), regex);
    }
  }

  lemma ObjectDecides(members: seq<Member>, schema: Json, regex: Regex)
    requires WellFormed(schema, regex)
    ensures Decides(ObjectVerdict(members, schema, regex), ShapeHolds(JObject(members), schema, regex, false))
    decreases schema, 1
  {
    var verdicts := MemberVerdicts(members, schema, regex);
    var truths := seq(|members|, i requires 0 <= i < |members| => MemberHolds(members[i], schema, regex, false));
    forall i | 0 <= i < |members|
      ensures Decides(verdicts[i], truths[i])
    {
      MemberDecides(members[i], schema, regex);
    }
    FirstDecides(verdicts, truths);
  }

  lemma ItemsDecide(items: seq<Json>, schema: Json, regex: Regex)
    requires WellFormed(schema, regex)
    ensures Decides(First(ItemVerdicts(items, schema, regex)), forall i :: 0 <= i < |items| ==> Satisfies(items[i], schema, regex, false))
    decreases schema, 4
  {
    var verdicts := ItemVerdicts(items, schema, regex);
    var truths := seq(|items|, i requires 0 <= i < |items| => Satisfies(items[i], schema, regex, false));
    forall i | 0 <= i < |items|
      ensures Decides(verdicts[i], truths[i])
    {
      ValidatorDecides(items[i], schema, regex);
    }
    FirstDecides(verdicts, truths);
  }

  lemma ArrayDecides(items: seq<Json>, schema: Json, regex: Regex)
    requires WellFormed(schema, regex)
    ensures Decides(ArrayVerdict(items, schema, regex), ShapeHolds(JArray(items), schema, regex, false))
    decreases schema, 1
  {
    BoundDecides(|items| as real, schema, "minItems", "maxItems");
    if Has(schema, "items") {
      ItemsDecide(items, At(schema, "items"), regex);
    }
  }

  lemma ShapeDecides(value: Json, schema: Json, regex: Regex)
    requires WellFormed(schema, regex)
    ensures Decides(ShapeVerdict(value, schema, regex), ShapeHolds(value, schema, regex, false))
    decreases schema, 2
  {
    match value
    case JObject(members) =>
      ObjectDecides(members, schema, regex);
    case JArray(items) =>
      ArrayDecides(items, schema, regex);
    case JString(text) =>
      BoundDecides(|text| as real, schema, "minLength", "maxLength");
    case JInt(_) =>
      BoundDecides(Amount(value), schema, "minimum", "maximum");
    case JFloat(_) =>
      BoundDecides(Amount(value), schema, "minimum", "maximum");
    case JNull =>
    case JBool(_) =>
  }

  /**
   * On a well-formed schema the validator never reports a bad schema, and accepts exactly the values
   * that satisfy every keyword.
   */
  lemma ValidatorDecides(value: Json, schema: Json, regex: Regex)
    requires WellFormed(schema, regex)
    ensures Decides(Validate(value, schema, regex), Satisfies(value, schema, regex, false))
    decreases schema, 3
  {
    CombinatorsDecide(value, schema, regex);
    ValueDecides(value, schema, regex);
    ShapeDecides(value, schema, regex);
  }

  // ---------------------------------------------------------------------------------------
  // The combinator loops.

  lemma {:induction false} FirstStops(verdicts: seq<Verdict>, k: nat)
    requires k < |verdicts| && First(verdicts[..k]) == Valid && verdicts[k] != Valid
    ensures First(verdicts) == verdicts[k]
    decreases |verdicts|
  {
    var last := |verdicts| - 1;
    if k < last {
      assert verdicts[..last][..k] == verdicts[..k];
      FirstStops(verdicts[..last], k);
    }
  }

  lemma {:induction false} MatchesStops(verdicts: seq<Verdict>, k: nat)
    requires k < |verdicts| && verdicts[k] == BadSchema
    ensures Matches(verdicts) == Broken
    decreases |verdicts|
  {
    var last := |verdicts| - 1;
    if k < last {
      MatchesStops(verdicts[..last], k);
    }
  }

  lemma MatchesNext(verdicts: seq<Verdict>, k: nat)
    requires k < |verdicts| && Matches(verdicts[..k]).Count?
    ensures verdicts[k] == Valid ==> Matches(verdicts[..k + 1]) == Count(Matches(verdicts[..k]).n + 1)
    ensures verdicts[k] == Invalid ==> Matches(verdicts[..k + 1]) == Matches(verdicts[..k])
  {
    assert verdicts[..k + 1][..k] == verdicts[..k];
  }

  method ValidateAll(value: Json, schemas: seq<Json>, regex: Regex) returns (verdict: Verdict)
    requires AreObjects(schemas)
    ensures verdict == First(Verdicts(value, schemas, regex))
  {
    ghost var verdicts := Verdicts(value, schemas, regex);
    for k := 0 to |schemas|
      invariant First(verdicts[..k]) == Valid
    {
      verdict := Validate(value, schemas[k], regex);
      assert verdicts[..k + 1][..k] == verdicts[..k];
      if verdict != Valid {
        FirstStops(verdicts, k);
        return;
      }
    }
    assert verdicts[..|schemas|] == verdicts;
    verdict := Valid;
  }

  /** The counting loop; a malformed alternative ends it. */
  method CountMatches(value: Json, schemas: seq<Json>, regex: Regex) returns (tally: Tally)
    requires AreObjects(schemas)
    ensures tally == Matches(Verdicts(value, schemas, regex))
  {
    ghost var verdicts := Verdicts(value, schemas, regex);
    var matches := 0;
    for k := 0 to |schemas|
      invariant Matches(verdicts[..k]) == Count(matches)
    {
      var verdict := Validate(value, schemas[k], regex);
      MatchesNext(verdicts, k);
      if verdict == BadSchema {
        MatchesStops(verdicts, k);
        return Broken;
      }
      if verdict == Invalid {
        continue;
      }
      matches := matches + 1;
    }
    assert verdicts[..|schemas|] == verdicts;
    tally := Count(matches);
  }

  method ValidateCombinator(value: Json, schema: Json, name: string, regex: Regex) returns (verdict: Verdict)
    requires schema.JObject?
    ensures verdict == CombinatorVerdict(value, schema, name, regex)
  {
    if !Has(schema, name) {
      return Valid;
    }
    if !AreSchemas(At(schema, name)) {
      return BadSchema;
    }
    var alternatives := At(schema, name).items;
    if name == "allOf" {
      verdict := ValidateAll(value, alternatives, regex);
      return;
    }
    var tally := CountMatches(value, alternatives, regex);
    if tally == Broken {
      return BadSchema;
    }
    if name == "anyOf" && tally.n == 0 {
      return Invalid;
    }
    if name != "anyOf" && tally.n != 1 {
      return Invalid;
    }
    verdict := Valid;
  }

  method ValidateCombinators(value: Json, schema: Json, regex: Regex) returns (verdict: Verdict)
    requires schema.JObject?
    ensures verdict == CombinatorsVerdict(value, schema, regex)
  {
    verdict := ValidateCombinator(value, schema, "allOf", regex);
    if verdict == Valid {
      verdict := ValidateCombinator(value, schema, "anyOf", regex);
    }
    if verdict == Valid {
      verdict := ValidateCombinator(value, schema, "oneOf", regex);
    }
  }

  // ---------------------------------------------------------------------------------------
  // Tool arguments.

  /** A tool's schema describes an object even where it does not say so. */
  function WithType(schema: Json): Json
    requires schema.JObject?
  {
    if Has(schema, "type") then schema else JObject(schema.members + [Member("type", JString("object"))])
  }

  function ValidateArguments(arguments: Json, schema: Json, regex: Regex): Verdict {
    if !arguments.JObject? then Invalid
    else if !schema.JObject? then BadSchema
    else Validate(arguments, WithType(schema), regex)
  }

  lemma {:induction false} FindInMore(members: seq<Member>, extra: Member, name: string)
    ensures Find(members + [extra], name)
         == if Find(members, name) < |members| then Find(members, name)
            else if extra.name == name then |members| else |members| + 1
  {
    if members == [] {
      assert [] + [extra] == [extra];
      assert Find([extra], name) == if extra.name == name then 0 else 1 + Find([], name);
    } else {
      assert (members + [extra])[1..] == members[1..] + [extra];
      if members[0].name != name {
        FindInMore(members[1..], extra, name);
      }
    }
  }

  /** Both have the same entry, or neither has it. */
  predicate SameEntry(s: Json, t: Json, name: string)
    requires s.JObject? && t.JObject?
  {
    (Has(s, name) <==> Has(t, name)) && (Has(s, name) ==> At(s, name) == At(t, name))
  }

  lemma OnlyTypeIsAdded(schema: Json, name: string)
    requires schema.JObject?
    ensures name != "type" ==> SameEntry(schema, WithType(schema), name)
    ensures Get(WithType(schema), "type") == if Has(schema, "type") then At(schema, "type") else JString("object")
  {
    FindInMore(schema.members, Member("type", JString("object")), name);
    FindInMore(schema.members, Member("type", JString("object")), "type");
  }

  lemma LeavesStay(schema: Json, regex: Regex)
    requires schema.JObject? && LeavesAreWellFormed(schema, regex)
    ensures LeavesAreWellFormed(WithType(schema), regex)
  {
    OnlyTypeIsAdded(schema, "$ref");
    OnlyTypeIsAdded(schema, "enum");
    OnlyTypeIsAdded(schema, "required");
    OnlyTypeIsAdded(schema, "minimum");
    OnlyTypeIsAdded(schema, "maximum");
    OnlyTypeIsAdded(schema, "minLength");
    OnlyTypeIsAdded(schema, "maxLength");
    OnlyTypeIsAdded(schema, "minItems");
    OnlyTypeIsAdded(schema, "maxItems");
    OnlyTypeIsAdded(schema, "pattern");
  }

  lemma AlternativesStay(schema: Json, name: string, regex: Regex)
    requires schema.JObject? && name != "type" && Alternatives(schema, name, regex)
    ensures Alternatives(WithType(schema), name, regex)
  {
    OnlyTypeIsAdded(schema, name);
  }

  lemma WithTypeIsWellFormed(schema: Json, regex: Regex)
    requires WellFormed(schema, regex)
    ensures WellFormed(WithType(schema), regex)
  {
    LeavesStay(schema, regex);
    AlternativesStay(schema, "allOf", regex);
    AlternativesStay(schema, "anyOf", regex);
    AlternativesStay(schema, "oneOf", regex);
    OnlyTypeIsAdded(schema, "properties");
    OnlyTypeIsAdded(schema, "additionalProperties");
    OnlyTypeIsAdded(schema, "items");
  }

  lemma CombinatorsStay(value: Json, schema: Json, regex: Regex)
    requires WellFormed(schema, regex) && WellFormed(WithType(schema), regex)
    ensures CombinatorsHold(value, WithType(schema), regex, false) <==> CombinatorsHold(value, schema, regex, false)
  {
    OnlyTypeIsAdded(schema, "allOf");
    OnlyTypeIsAdded(schema, "anyOf");
    OnlyTypeIsAdded(schema, "oneOf");
  }

  lemma ValueStays(value: Json, schema: Json, regex: Regex)
    requires value.JObject? && LeavesStillAre(schema, regex)
    ensures ValueHolds(value, WithType(schema), regex, false) <==> ValueHolds(value, schema, regex, false)
  {
    OnlyTypeIsAdded(schema, "const");
    OnlyTypeIsAdded(schema, "enum");
  }

  predicate LeavesStillAre(schema: Json, regex: Regex) {
    schema.JObject? && LeavesAreWellFormed(schema, regex) && LeavesAreWellFormed(WithType(schema), regex)
  }

  lemma MemberStays(member: Member, schema: Json, regex: Regex)
    requires WellFormed(schema, regex) && WellFormed(WithType(schema), regex)
    ensures MemberHolds(member, WithType(schema), regex, false) <==> MemberHolds(member, schema, regex, false)
  {
    OnlyTypeIsAdded(schema, "properties");
    OnlyTypeIsAdded(schema, "additionalProperties");
  }

  lemma ShapeStays(members: seq<Member>, schema: Json, regex: Regex)
    requires WellFormed(schema, regex) && WellFormed(WithType(schema), regex)
    ensures ShapeHolds(JObject(members), WithType(schema), regex, false) <==> ShapeHolds(JObject(members), schema, regex, false)
  {
    OnlyTypeIsAdded(schema, "required");
    forall i | 0 <= i < |members|
      ensures MemberHolds(members[i], WithType(schema), regex, false) <==> MemberHolds(members[i], schema, regex, false)
    {
      MemberStays(members[i], schema, regex);
    }
  }

  /** For a well-formed schema the arguments are accepted exactly when they are an object that satisfies it, and are otherwise refused as arguments. */
  lemma ArgumentsAreDecided(arguments: Json, schema: Json, regex: Regex)
    requires WellFormed(schema, regex)
    ensures Decides(ValidateArguments(arguments, schema, regex), arguments.JObject? && Satisfies(arguments, schema, regex, false))
  {
    if arguments.JObject? {
      WithTypeIsWellFormed(schema, regex);
      ValidatorDecides(arguments, WithType(schema), regex);
      CombinatorsStay(arguments, schema, regex);
      ValueStays(arguments, schema, regex);
      ShapeStays(arguments.members, schema, regex);
    }
  }

  lemma OneEntry(entry: Member, name: string)
    ensures var schema := JObject([entry]);
            (Has(schema, name) <==> name == entry.name) && (Has(schema, name) ==> At(schema, name) == entry.value)
  {
    assert [entry][1..] == [];
  }
}
