/** Where the validator and JSON Schema part ways: flags that equal numbers, and integers written with a decimal point. */
module SchemaStandard {
  import opened Json
  import opened SchemaValidator

  /** Somewhere inside two values a flag stands against a number. */
  predicate FlagMeetsNumber(a: Json, b: Json)
    decreases a
  {
    || (a.JBool? && IsNumber(b)) || (IsNumber(a) && b.JBool?)
    || (a.JArray? && b.JArray? && |a.items| == |b.items|
        && exists i :: 0 <= i < |a.items| && FlagMeetsNumber(a.items[i], b.items[i]))
    || (a.JObject? && b.JObject?
        && exists i :: 0 <= i < |a.members| && Has(b, a.members[i].name)
                       && FlagMeetsNumber(a.members[i].value, At(b, a.members[i].name)))
  }

  /** The two equalities differ exactly on values of equal amounts that pair a flag with a number. */
  lemma {:induction false} EqualitiesDifferExactlyWhen(a: Json, b: Json)
    ensures StrictlyEqual(a, b) <==> Equal(a, b) && !FlagMeetsNumber(a, b)
    decreases a
  {
    if a.JArray? && b.JArray? && |a.items| == |b.items| {
      forall i | 0 <= i < |a.items|
        ensures StrictlyEqual(a.items[i], b.items[i]) <==> Equal(a.items[i], b.items[i]) && !FlagMeetsNumber(a.items[i], b.items[i])
      {
        EqualitiesDifferExactlyWhen(a.items[i], b.items[i]);
      }
    } else if a.JObject? && b.JObject? {
      forall i | 0 <= i < |a.members| && Has(b, a.members[i].name)
        ensures var x, y := a.members[i].value, At(b, a.members[i].name);
                StrictlyEqual(x, y) <==> Equal(x, y) && !FlagMeetsNumber(x, y)
      {
        EqualitiesDifferExactlyWhen(a.members[i].value, At(b, a.members[i].name));
      }
    }
  }

  // ---------------------------------------------------------------------------------------
  // One value against one schema.

  /** An integer is asked for, and the value is one, written with a decimal point. */
  predicate WholeFloatForInteger(value: Json, schema: Json)
    requires schema.JObject?
  {
    Get(schema, "type") == JString("integer") && value.JFloat? && IsWhole(value)
  }

  /** The value equals the constant, but only by taking a flag for a number. */
  predicate ConstTakesFlag(value: Json, schema: Json)
    requires schema.JObject?
  {
    Has(schema, "const") && Equal(value, At(schema, "const")) && FlagMeetsNumber(value, At(schema, "const"))
  }

  /** The value equals some allowed values, but each of them only by taking a flag for a number. */
  predicate EnumTakesFlag(value: Json, schema: Json)
    requires schema.JObject?
  {
    && Has(schema, "enum") && At(schema, "enum").JArray?
    && var allowed := At(schema, "enum").items;
       InEnum(value, allowed) && forall i :: 0 <= i < |allowed| && Equal(value, allowed[i]) ==> FlagMeetsNumber(value, allowed[i])
  }

  predicate Clean(value: Json, schema: Json) {
    schema.JObject? ==> !WholeFloatForInteger(value, schema) && !ConstTakesFlag(value, schema) && !EnumTakesFlag(value, schema)
  }

  lemma EnumDiffersExactlyWhen(value: Json, schema: Json)
    requires schema.JObject? && Has(schema, "enum") && At(schema, "enum").JArray?
    ensures var allowed := At(schema, "enum").items;
            IsAmong(value, allowed, true) <==> IsAmong(value, allowed, false) && !EnumTakesFlag(value, schema)
  {
    var allowed := At(schema, "enum").items;
    forall i | 0 <= i < |allowed|
      ensures StrictlyEqual(value, allowed[i]) <==> Equal(value, allowed[i]) && !FlagMeetsNumber(value, allowed[i])
    {
      EqualitiesDifferExactlyWhen(value, allowed[i]);
    }
    if IsAmong(value, allowed, true) {
      var i :| 0 <= i < |allowed| && AreEqual(value, allowed[i], true);
      assert AreEqual(value, allowed[i], false);
    }
    if IsAmong(value, allowed, false) && !EnumTakesFlag(value, schema) {
      var j :| 0 <= j < |allowed| && AreEqual(value, allowed[j], false);
      assert InEnum(value, allowed);
      var i :| 0 <= i < |allowed| && Equal(value, allowed[i]) && !FlagMeetsNumber(value, allowed[i]);
      assert AreEqual(value, allowed[i], true);
    }
  }

  // ---------------------------------------------------------------------------------------
  // One keyword alone.

  function Alone(schema: Json, name: string): Json
    requires schema.JObject? && Has(schema, name)
  {
    JObject([Member(name, At(schema, name))])
  }

  /** What the keyword says by itself, the validator decides as the standard does. */
  ghost predicate KeywordAgrees(value: Json, schema: Json, name: string, regex: Regex)
    requires schema.JObject?
  {
    Has(schema, name) && WellFormed(Alone(schema, name), regex) ==>
      (Validate(value, Alone(schema, name), regex) == Valid <==> Satisfies(value, Alone(schema, name), regex, true))
  }

  ghost predicate KeywordsAgree(value: Json, schema: Json, regex: Regex) {
    schema.JObject? ==>
      KeywordAgrees(value, schema, "type", regex) && KeywordAgrees(value, schema, "const", regex) && KeywordAgrees(value, schema, "enum", regex)
  }

  predicate IsValueKeyword(name: string) { name == "type" || name == "const" || name == "enum" }

  lemma AloneLacks(entry: Member, name: string)
    requires IsValueKeyword(entry.name) && !IsValueKeyword(name)
    ensures !Has(JObject([entry]), name)
  {
    OneEntry(entry, name);
  }

  lemma AloneHasNoCombinators(value: Json, entry: Member, regex: Regex, strict: bool)
    requires IsValueKeyword(entry.name) && WellFormed(JObject([entry]), regex)
    ensures CombinatorsHold(value, JObject([entry]), regex, strict)
  {
    AloneLacks(entry, "allOf");
    AloneLacks(entry, "anyOf");
    AloneLacks(entry, "oneOf");
  }

  lemma AloneHasNoBounds(entry: Member)
    requires IsValueKeyword(entry.name)
    ensures var s := JObject([entry]); !Has(s, "minimum") && !Has(s, "maximum") && !Has(s, "minItems") && !Has(s, "maxItems")
    ensures var s := JObject([entry]); !Has(s, "minLength") && !Has(s, "maxLength") && !Has(s, "pattern")
  {
    AloneLacks(entry, "minimum");
    AloneLacks(entry, "maximum");
    AloneLacks(entry, "minItems");
    AloneLacks(entry, "maxItems");
    AloneLacks(entry, "minLength");
    AloneLacks(entry, "maxLength");
    AloneLacks(entry, "pattern");
  }

  lemma AloneHasNoShape(value: Json, entry: Member, regex: Regex, strict: bool)
    requires IsValueKeyword(entry.name) && WellFormed(JObject([entry]), regex)
    ensures ShapeHolds(value, JObject([entry]), regex, strict)
  {
    AloneHasNoBounds(entry);
    AloneLacks(entry, "items");
    AloneLacks(entry, "required");
    AloneLacks(entry, "properties");
    AloneLacks(entry, "additionalProperties");
  }

  lemma AloneIsDecided(value: Json, entry: Member, regex: Regex)
    requires IsValueKeyword(entry.name) && WellFormed(JObject([entry]), regex)
    ensures Satisfies(value, JObject([entry]), regex, true) <==> ValueHolds(value, JObject([entry]), regex, true)
    ensures Validate(value, JObject([entry]), regex) == Valid <==> ValueHolds(value, JObject([entry]), regex, false)
  {
    AloneHasNoCombinators(value, entry, regex, true);
    AloneHasNoCombinators(value, entry, regex, false);
    AloneHasNoShape(value, entry, regex, true);
    AloneHasNoShape(value, entry, regex, false);
    ValidatorDecides(value, JObject([entry]), regex);
  }

  lemma AloneIsWellFormed(schema: Json, name: string, regex: Regex)
    requires WellFormed(schema, regex) && IsValueKeyword(name) && Has(schema, name)
    ensures WellFormed(Alone(schema, name), regex)
  {
    var entry := Member(name, At(schema, name));
    AloneHasNoBounds(entry);
    AloneLacks(entry, "$ref");
    AloneLacks(entry, "allOf");
    AloneLacks(entry, "anyOf");
    AloneLacks(entry, "oneOf");
    AloneLacks(entry, "items");
    AloneLacks(entry, "required");
    AloneLacks(entry, "properties");
    AloneLacks(entry, "additionalProperties");
    OneEntry(entry, "type");
    OneEntry(entry, "enum");
  }

  lemma AloneTypeHolds(value: Json, entry: Member, regex: Regex, strict: bool)
    requires entry.name == "type" && WellFormed(JObject([entry]), regex)
    ensures ValueHolds(value, JObject([entry]), regex, strict) <==> (entry.value.JString? ==> IsOfType(value, entry.value.text, strict))
  {
    OneEntry(entry, "type");
    OneEntry(entry, "const");
    OneEntry(entry, "enum");
  }

  lemma EntryIsWellFormed(entry: Member, regex: Regex)
    requires entry.name == "const" || (entry.name == "type" && entry.value.JString? && entry.value.text in SUPPORTED_TYPES)
    ensures WellFormed(JObject([entry]), regex)
  {
    AloneHasNoBounds(entry);
    AloneLacks(entry, "$ref");
    AloneLacks(entry, "allOf");
    AloneLacks(entry, "anyOf");
    AloneLacks(entry, "oneOf");
    AloneLacks(entry, "items");
    AloneLacks(entry, "required");
    AloneLacks(entry, "properties");
    AloneLacks(entry, "additionalProperties");
    OneEntry(entry, "type");
    OneEntry(entry, "enum");
  }

  lemma KindsByName(value: Json, name: string)
    requires name in SUPPORTED_TYPES
    ensures IsOfType(value, name, false) ==
              if name == "null" then value.JNull?
              else if name == "boolean" then value.JBool?
              else if name == "integer" then value.JInt?
              else if name == "number" then value.JInt? || value.JFloat?
              else if name == "string" then value.JString?
              else if name == "array" then value.JArray?
              else value.JObject?
    ensures IsOfType(value, name, true) <==> if name == "integer" then IsWhole(value) else IsOfType(value, name, false)
  {
  }

  lemma TypeAloneIsDecided(value: Json, name: string, regex: Regex)
    requires name in SUPPORTED_TYPES
    ensures var schema := JObject([Member("type", JString(name))]);
            && WellFormed(schema, regex)
            && (Validate(value, schema, regex) == Valid <==> IsOfType(value, name, false))
            && (Satisfies(value, schema, regex, true) <==> IsOfType(value, name, true))
  {
    var entry := Member("type", JString(name));
    EntryIsWellFormed(entry, regex);
    AloneIsDecided(value, entry, regex);
    AloneTypeHolds(value, entry, regex, true);
    AloneTypeHolds(value, entry, regex, false);
  }

  /** What each type name means, from the way a value is written: the validator accepts exactly these. */
  lemma TypeNamesAccept(value: Json, name: string, regex: Regex)
    requires name in SUPPORTED_TYPES
    ensures (Validate(value, JObject([Member("type", JString(name))]), regex) == Valid) ==
              if name == "null" then value.JNull?
              else if name == "boolean" then value.JBool?
              else if name == "integer" then value.JInt?
              else if name == "number" then value.JInt? || value.JFloat?
              else if name == "string" then value.JString?
              else if name == "array" then value.JArray?
              else value.JObject?
  {
    TypeAloneIsDecided(value, name, regex);
    KindsByName(value, name);
  }

  /** And JSON Schema accepts the same, but for an integer any number without fraction. */
  lemma TypeNamesAcceptStrictly(value: Json, name: string, regex: Regex)
    requires name in SUPPORTED_TYPES
    ensures var schema := JObject([Member("type", JString(name))]);
            && WellFormed(schema, regex)
            && (Satisfies(value, schema, regex, true) <==>
                  if name == "integer" then IsWhole(value) else Validate(value, schema, regex) == Valid)
  {
    TypeAloneIsDecided(value, name, regex);
    KindsByName(value, name);
  }

  lemma AloneTypeAgreesExactlyWhen(value: Json, entry: Member, regex: Regex)
    requires entry.name == "type" && WellFormed(JObject([entry]), regex)
    ensures (Validate(value, JObject([entry]), regex) == Valid <==> Satisfies(value, JObject([entry]), regex, true))
       <==> !(entry.value == JString("integer") && value.JFloat? && IsWhole(value))
  {
    AloneIsDecided(value, entry, regex);
    AloneTypeHolds(value, entry, regex, true);
    AloneTypeHolds(value, entry, regex, false);
    if entry.value.JString? {
      KindsByName(value, entry.value.text);
    }
  }

  lemma TypeAgreesExactlyWhen(value: Json, schema: Json, regex: Regex)
    requires WellFormed(schema, regex)
    ensures KeywordAgrees(value, schema, "type", regex) <==> !WholeFloatForInteger(value, schema)
  {
    if Has(schema, "type") {
      AloneIsWellFormed(schema, "type", regex);
      AloneTypeAgreesExactlyWhen(value, Member("type", At(schema, "type")), regex);
    }
  }

  lemma ConstAgreesExactlyWhen(value: Json, schema: Json, regex: Regex)
    requires WellFormed(schema, regex)
    ensures KeywordAgrees(value, schema, "const", regex) <==> !ConstTakesFlag(value, schema)
  {
    if Has(schema, "const") {
      var entry := Member("const", At(schema, "const"));
      AloneIsWellFormed(schema, "const", regex);
      AloneIsDecided(value, entry, regex);
      OneEntry(entry, "type");
      OneEntry(entry, "const");
      OneEntry(entry, "enum");
      EqualitiesDifferExactlyWhen(value, entry.value);
    }
  }

  lemma EnumAgreesExactlyWhen(value: Json, schema: Json, regex: Regex)
    requires WellFormed(schema, regex)
    ensures KeywordAgrees(value, schema, "enum", regex) <==> !EnumTakesFlag(value, schema)
  {
    if Has(schema, "enum") {
      var entry := Member("enum", At(schema, "enum"));
      AloneIsWellFormed(schema, "enum", regex);
      AloneIsDecided(value, entry, regex);
      OneEntry(entry, "type");
      OneEntry(entry, "const");
      OneEntry(entry, "enum");
      EnumDiffersExactlyWhen(value, schema);
      assert InEnum(value, entry.value.items) <==> IsAmong(value, entry.value.items, false);
    }
  }

  // ---------------------------------------------------------------------------------------
  // Every depth.

  /** The condition holds of the value and every part of it, against every schema each is checked against. */
  ghost predicate Everywhere(value: Json, schema: Json, regex: Regex, condition: (Json, Json) -> bool)
    requires WellFormed(schema, regex)
    decreases schema, 4
  {
    condition(value, schema) && Inside(value, schema, regex, condition)
  }

  /** As Everywhere, but nothing is said of the value against the schema itself. */
  ghost predicate Inside(value: Json, schema: Json, regex: Regex, condition: (Json, Json) -> bool)
    requires WellFormed(schema, regex)
    decreases schema, 3
  {
    && EveryOption(value, schema, "allOf", regex, condition)
    && EveryOption(value, schema, "anyOf", regex, condition)
    && EveryOption(value, schema, "oneOf", regex, condition)
    && (value.JArray? && Has(schema, "items") ==>
          forall i :: 0 <= i < |value.items| ==> Everywhere(value.items[i], At(schema, "items"), regex, condition))
    && (value.JObject? ==> forall i :: 0 <= i < |value.members| ==> AtMember(value.members[i], schema, regex, condition))
  }

  ghost predicate EveryOption(value: Json, schema: Json, name: string, regex: Regex, condition: (Json, Json) -> bool)
    requires schema.JObject? && Alternatives(schema, name, regex)
    decreases schema, 2
  {
    Has(schema, name) ==>
      var options := Options(schema, name, regex);
      forall k :: 0 <= k < |options| ==> Everywhere(value, options[k], regex, condition)
  }

  ghost predicate AtMember(member: Member, schema: Json, regex: Regex, condition: (Json, Json) -> bool)
    requires WellFormed(schema, regex)
    decreases schema, 0
  {
    if Declares(schema, member.name) then
      Everywhere(member.value, At(At(schema, "properties"), member.name), regex, condition)
    else
      Has(schema, "additionalProperties") && At(schema, "additionalProperties").JObject? ==>
        Everywhere(member.value, At(schema, "additionalProperties"), regex, condition)
  }

  /** Where the first holds everywhere and the second inside, the second holds too. */
  ghost predicate Forces(p: (Json, Json) -> bool, q: (Json, Json) -> bool, regex: Regex) {
    forall value, schema ::
      WellFormed(schema, regex) && Everywhere(value, schema, regex, p) && Inside(value, schema, regex, q) ==> q(value, schema)
  }

  lemma {:induction false} EverywhereForced(value: Json, schema: Json, regex: Regex, p: (Json, Json) -> bool, q: (Json, Json) -> bool)
    requires WellFormed(schema, regex) && Forces(p, q, regex) && Everywhere(value, schema, regex, p)
    ensures Everywhere(value, schema, regex, q)
    decreases schema, 3
  {
    OptionsForced(value, schema, "allOf", regex, p, q);
    OptionsForced(value, schema, "anyOf", regex, p, q);
    OptionsForced(value, schema, "oneOf", regex, p, q);
    if value.JArray? && Has(schema, "items") {
      forall i | 0 <= i < |value.items|
        ensures Everywhere(value.items[i], At(schema, "items"), regex, q)
      {
        EverywhereForced(value.items[i], At(schema, "items"), regex, p, q);
      }
    } else if value.JObject? {
      forall i | 0 <= i < |value.members|
        ensures AtMember(value.members[i], schema, regex, q)
      {
        MemberForced(value.members[i], schema, regex, p, q);
      }
    }
    assert Inside(value, schema, regex, q);
  }

  lemma {:induction false} OptionsForced(value: Json, schema: Json, name: string, regex: Regex, p: (Json, Json) -> bool, q: (Json, Json) -> bool)
    requires schema.JObject? && Alternatives(schema, name, regex) && Forces(p, q, regex) && EveryOption(value, schema, name, regex, p)
    ensures EveryOption(value, schema, name, regex, q)
    decreases schema, 2
  {
    if Has(schema, name) {
      var options := Options(schema, name, regex);
      forall k | 0 <= k < |options|
        ensures Everywhere(value, options[k], regex, q)
      {
        EverywhereForced(value, options[k], regex, p, q);
      }
    }
  }

  lemma {:induction false} MemberForced(member: Member, schema: Json, regex: Regex, p: (Json, Json) -> bool, q: (Json, Json) -> bool)
    requires WellFormed(schema, regex) && Forces(p, q, regex) && AtMember(member, schema, regex, p)
    ensures AtMember(member, schema, regex, q)
    decreases schema, 0
  {
    if Declares(schema, member.name) {
      EverywhereForced(member.value, At(At(schema, "properties"), member.name), regex, p, q);
    } else if Has(schema, "additionalProperties") && At(schema, "additionalProperties").JObject? {
      EverywhereForced(member.value, At(schema, "additionalProperties"), regex, p, q);
    }
  }

  /**
   * At every depth each of `type`, `const` and `enum` is decided as JSON Schema decides it, exactly when
   * nowhere a constant or an enumeration is met only by taking a flag for a number of the same amount,
   * and nowhere an integer is asked for and given with a decimal point.
   */
  lemma KeywordsAgreeExactlyWhen(value: Json, schema: Json, regex: Regex)
    requires WellFormed(schema, regex)
    ensures Everywhere(value, schema, regex, (v, s) => KeywordsAgree(v, s, regex)) <==> Everywhere(value, schema, regex, Clean)
  {
    var agree := (v, s) => KeywordsAgree(v, s, regex);
    forall v, s | WellFormed(s, regex)
      ensures agree(v, s) <==> Clean(v, s)
    {
      TypeAgreesExactlyWhen(v, s, regex);
      ConstAgreesExactlyWhen(v, s, regex);
      EnumAgreesExactlyWhen(v, s, regex);
    }
    if Everywhere(value, schema, regex, agree) {
      EverywhereForced(value, schema, regex, agree, Clean);
    }
    if Everywhere(value, schema, regex, Clean) {
      EverywhereForced(value, schema, regex, Clean, agree);
    }
  }

  // ---------------------------------------------------------------------------------------
  // The whole verdict.

  /** The validator accepts the value exactly when JSON Schema does. */
  ghost predicate VerdictAgrees(value: Json, schema: Json, regex: Regex) {
    WellFormed(schema, regex) ==> (Validate(value, schema, regex) == Valid <==> Satisfies(value, schema, regex, true))
  }

  /**
   * Nothing else refuses the value, and the two readings of `type`, `const` and `enum` differ: either all
   * three pass and one of them by taking a flag for a number, or only the decimal point is in the way.
   */
  predicate Parts(value: Json, schema: Json, regex: Regex)
    requires schema.JObject?
  {
    && CombinatorsVerdict(value, schema, regex) == Valid && ShapeVerdict(value, schema, regex) == Valid
    && ConstVerdict(value, schema) == Valid && EnumVerdict(value, schema) == Valid
    && var takesFlag := ConstTakesFlag(value, schema) || EnumTakesFlag(value, schema);
       if takesFlag then TypeVerdict(value, schema) == Valid else WholeFloatForInteger(value, schema)
  }

  predicate NeverParts(value: Json, schema: Json, regex: Regex) { schema.JObject? ==> !Parts(value, schema, regex) }

  predicate TypeHolds(value: Json, schema: Json, strict: bool)
    requires schema.JObject?
  {
    Get(schema, "type").JString? ==> IsOfType(value, Get(schema, "type").text, strict)
  }

  predicate ConstHolds(value: Json, schema: Json, strict: bool)
    requires schema.JObject?
  {
    Has(schema, "const") ==> AreEqual(value, At(schema, "const"), strict)
  }

  predicate EnumHolds(value: Json, schema: Json, strict: bool)
    requires schema.JObject? && (Has(schema, "enum") ==> At(schema, "enum").JArray?)
  {
    Has(schema, "enum") ==> IsAmong(value, At(schema, "enum").items, strict)
  }

  lemma TypeReadings(value: Json, schema: Json, regex: Regex)
    requires schema.JObject? && LeavesAreWellFormed(schema, regex)
    ensures TypeHolds(value, schema, false) <==> TypeVerdict(value, schema) == Valid
    ensures TypeHolds(value, schema, true) <==> TypeVerdict(value, schema) == Valid || WholeFloatForInteger(value, schema)
    ensures WholeFloatForInteger(value, schema) ==> TypeVerdict(value, schema) != Valid
  {
  }

  lemma ConstReadings(value: Json, schema: Json)
    requires schema.JObject?
    ensures ConstHolds(value, schema, false) <==> ConstVerdict(value, schema) == Valid
    ensures ConstHolds(value, schema, true) <==> ConstVerdict(value, schema) == Valid && !ConstTakesFlag(value, schema)
  {
    if Has(schema, "const") {
      EqualitiesDifferExactlyWhen(value, At(schema, "const"));
    }
  }

  lemma EnumReadings(value: Json, schema: Json)
    requires schema.JObject? && (Has(schema, "enum") ==> At(schema, "enum").JArray?)
    ensures EnumHolds(value, schema, false) <==> EnumVerdict(value, schema) == Valid
    ensures EnumHolds(value, schema, true) <==> EnumVerdict(value, schema) == Valid && !EnumTakesFlag(value, schema)
  {
    if Has(schema, "enum") {
      EnumDiffersExactlyWhen(value, schema);
      LooselyAmong(value, At(schema, "enum").items);
    }
  }

  lemma LooselyAmong(value: Json, allowed: seq<Json>)
    ensures InEnum(value, allowed) <==> IsAmong(value, allowed, false)
  {
    forall i | 0 <= i < |allowed|
      ensures AreEqual(value, allowed[i], false) == Equal(value, allowed[i])
    {
    }
  }

  lemma ReadingsDifferExactlyWhen(value: Json, schema: Json, regex: Regex)
    requires schema.JObject? && LeavesAreWellFormed(schema, regex)
    ensures (ValueHolds(value, schema, regex, true) <==> ValueHolds(value, schema, regex, false))
       <==> !(&& ConstVerdict(value, schema) == Valid && EnumVerdict(value, schema) == Valid
              && if ConstTakesFlag(value, schema) || EnumTakesFlag(value, schema) then TypeVerdict(value, schema) == Valid
                 else WholeFloatForInteger(value, schema))
  {
    TypeReadings(value, schema, regex);
    ConstReadings(value, schema);
    EnumReadings(value, schema);
    ReadingsTogether(value, schema, regex, true);
    ReadingsTogether(value, schema, regex, false);
  }

  lemma ReadingsTogether(value: Json, schema: Json, regex: Regex, strict: bool)
    requires schema.JObject? && LeavesAreWellFormed(schema, regex)
    ensures ValueHolds(value, schema, regex, strict)
       <==> TypeHolds(value, schema, strict) && ConstHolds(value, schema, strict) && EnumHolds(value, schema, strict)
  {
  }

  lemma OptionAgrees(value: Json, option: Json, regex: Regex, agree: (Json, Json) -> bool)
    requires WellFormed(option, regex)
    requires (forall v, s :: agree(v, s) <==> VerdictAgrees(v, s, regex)) && Everywhere(value, option, regex, agree)
    ensures Satisfies(value, option, regex, true) <==> Satisfies(value, option, regex, false)
  {
    assert agree(value, option);
    ValidatorDecides(value, option, regex);
  }

  lemma OptionsAgree(value: Json, schema: Json, name: string, regex: Regex, agree: (Json, Json) -> bool)
    requires schema.JObject? && Has(schema, name) && Alternatives(schema, name, regex)
    requires (forall v, s :: agree(v, s) <==> VerdictAgrees(v, s, regex)) && EveryOption(value, schema, name, regex, agree)
    ensures Truths(value, Options(schema, name, regex), regex, true) == Truths(value, Options(schema, name, regex), regex, false)
  {
    var options := Options(schema, name, regex);
    forall k | 0 <= k < |options|
      ensures Satisfies(value, options[k], regex, true) <==> Satisfies(value, options[k], regex, false)
    {
      OptionAgrees(value, options[k], regex, agree);
    }
  }

  lemma CombinatorsAgree(value: Json, schema: Json, regex: Regex, agree: (Json, Json) -> bool)
    requires WellFormed(schema, regex)
    requires (forall v, s :: agree(v, s) <==> VerdictAgrees(v, s, regex)) && Inside(value, schema, regex, agree)
    ensures CombinatorsHold(value, schema, regex, true) <==> CombinatorsHold(value, schema, regex, false)
  {
    if Has(schema, "allOf") {
      OptionsAgree(value, schema, "allOf", regex, agree);
    }
    if Has(schema, "anyOf") {
      OptionsAgree(value, schema, "anyOf", regex, agree);
    }
    if Has(schema, "oneOf") {
      OptionsAgree(value, schema, "oneOf", regex, agree);
    }
  }

  lemma ItemAgrees(value: Json, schema: Json, regex: Regex, agree: (Json, Json) -> bool)
    requires WellFormed(schema, regex)
    requires (forall v, s :: agree(v, s) <==> VerdictAgrees(v, s, regex)) && Everywhere(value, schema, regex, agree)
    ensures Satisfies(value, schema, regex, true) <==> Satisfies(value, schema, regex, false)
  {
    assert agree(value, schema);
    ValidatorDecides(value, schema, regex);
  }

  lemma MemberAgrees(member: Member, schema: Json, regex: Regex, agree: (Json, Json) -> bool)
    requires WellFormed(schema, regex)
    requires (forall v, s :: agree(v, s) <==> VerdictAgrees(v, s, regex)) && AtMember(member, schema, regex, agree)
    ensures MemberHolds(member, schema, regex, true) <==> MemberHolds(member, schema, regex, false)
  {
    if Declares(schema, member.name) {
      ItemAgrees(member.value, At(At(schema, "properties"), member.name), regex, agree);
    } else if Has(schema, "additionalProperties") && At(schema, "additionalProperties").JObject? {
      ItemAgrees(member.value, At(schema, "additionalProperties"), regex, agree);
    }
  }

  lemma ShapeAgrees(value: Json, schema: Json, regex: Regex, agree: (Json, Json) -> bool)
    requires WellFormed(schema, regex)
    requires (forall v, s :: agree(v, s) <==> VerdictAgrees(v, s, regex)) && Inside(value, schema, regex, agree)
    ensures ShapeHolds(value, schema, regex, true) <==> ShapeHolds(value, schema, regex, false)
  {
    if value.JArray? && Has(schema, "items") {
      forall i | 0 <= i < |value.items|
        ensures Satisfies(value.items[i], At(schema, "items"), regex, true) <==> Satisfies(value.items[i], At(schema, "items"), regex, false)
      {
        ItemAgrees(value.items[i], At(schema, "items"), regex, agree);
      }
    } else if value.JObject? {
      forall i | 0 <= i < |value.members|
        ensures MemberHolds(value.members[i], schema, regex, true) <==> MemberHolds(value.members[i], schema, regex, false)
      {
        MemberAgrees(value.members[i], schema, regex, agree);
      }
    }
  }

  /** Where all parts agree, so does the whole unless it parts. */
  lemma AgreesUnlessParts(value: Json, schema: Json, regex: Regex, agree: (Json, Json) -> bool)
    requires WellFormed(schema, regex)
    requires (forall v, s :: agree(v, s) <==> VerdictAgrees(v, s, regex)) && Inside(value, schema, regex, agree)
    ensures VerdictAgrees(value, schema, regex) <==> !Parts(value, schema, regex)
  {
    CombinatorsAgree(value, schema, regex, agree);
    ShapeAgrees(value, schema, regex, agree);
    ReadingsDifferExactlyWhen(value, schema, regex);
    CombinatorsDecide(value, schema, regex);
    ShapeDecides(value, schema, regex);
    ValidatorDecides(value, schema, regex);
  }

  /** At every depth the validator and JSON Schema give the same verdict, exactly when no pair anywhere parts. */
  lemma VerdictsAgreeExactlyWhen(value: Json, schema: Json, regex: Regex)
    requires WellFormed(schema, regex)
    ensures Everywhere(value, schema, regex, (v, s) => VerdictAgrees(v, s, regex))
       <==> Everywhere(value, schema, regex, (v, s) => NeverParts(v, s, regex))
  {
    var agree, apart := (v, s) => VerdictAgrees(v, s, regex), (v, s) => NeverParts(v, s, regex);
    forall v, s | WellFormed(s, regex) && Inside(v, s, regex, agree)
      ensures agree(v, s) <==> apart(v, s)
    {
      AgreesUnlessParts(v, s, regex, agree);
    }
    if Everywhere(value, schema, regex, agree) {
      EverywhereForced(value, schema, regex, agree, apart);
    }
    if Everywhere(value, schema, regex, apart) {
      EverywhereForced(value, schema, regex, apart, agree);
    }
  }

  /** Where every depth is clean the validator accepts exactly what JSON Schema accepts. */
  lemma CleanIsStandard(value: Json, schema: Json, regex: Regex)
    requires WellFormed(schema, regex) && Everywhere(value, schema, regex, Clean)
    ensures Decides(Validate(value, schema, regex), Satisfies(value, schema, regex, true))
  {
    var agree, apart := (v, s) => VerdictAgrees(v, s, regex), (v, s) => NeverParts(v, s, regex);
    EverywhereForced(value, schema, regex, Clean, apart);
    VerdictsAgreeExactlyWhen(value, schema, regex);
    assert agree(value, schema);
    ValidatorDecides(value, schema, regex);
  }

  // ---------------------------------------------------------------------------------------
  // Both ways of parting.

  /** Constants are compared by amount: the flag true passes for the constant 1, although JSON Schema keeps the two apart. */
  lemma TruePassesForOne(regex: Regex)
    ensures var schema := JObject([Member("const", JInt(1))]);
            && WellFormed(schema, regex) && !Clean(JBool(true), schema)
            && Validate(JBool(true), schema, regex) == Valid && !Satisfies(JBool(true), schema, regex, true)
  {
    var entry := Member("const", JInt(1));
    OneEntry(entry, "const");
    OneEntry(entry, "type");
    OneEntry(entry, "enum");
    EntryIsWellFormed(entry, regex);
    AloneIsDecided(JBool(true), entry, regex);
  }

  /** An integer must be written without a decimal point: 1.0 is refused, although JSON Schema counts it. */
  lemma WholeFloatIsRefused(regex: Regex)
    ensures var schema := JObject([Member("type", JString("integer"))]);
            && WellFormed(schema, regex) && !Clean(JFloat(1.0), schema)
            && Validate(JFloat(1.0), schema, regex) == Invalid && Satisfies(JFloat(1.0), schema, regex, true)
  {
    var entry := Member("type", JString("integer"));
    OneEntry(entry, "const");
    OneEntry(entry, "type");
    OneEntry(entry, "enum");
    EntryIsWellFormed(entry, regex);
    AloneIsDecided(JFloat(1.0), entry, regex);
    ValidatorDecides(JFloat(1.0), JObject([entry]), regex);
  }
}
