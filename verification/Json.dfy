/** JSON values as the source's parser returns them; an object's members keep their order. */
module Json {

  datatype Json =
    | JNull
    | JBool(flag: bool)
    | JInt(integer: int)
    | JFloat(number: real)
    | JString(text: string)
    | JArray(items: seq<Json>)
    | JObject(members: seq<Member>)

  datatype Member = Member(name: string, value: Json)

  /** The position of the member with this name, or the number of members when there is none. */
  function Find(members: seq<Member>, name: string): (i: nat)
    ensures i <= |members| && (i < |members| ==> members[i].name == name)
    ensures forall j :: 0 <= j < i ==> members[j].name != name
  {
    if members == [] then 0
    else if members[0].name == name then 0
    else 1 + Find(members[1..], name)
  }

  predicate Has(obj: Json, name: string)
    requires obj.JObject?
  {
    Find(obj.members, name) < |obj.members|
  }

  function At(obj: Json, name: string): (value: Json)
    requires obj.JObject? && Has(obj, name)
    ensures value < obj
  {
    obj.members[Find(obj.members, name)].value
  }

  /** A member, with null when it is missing. */
  function Get(obj: Json, name: string): Json
    requires obj.JObject?
  {
    if Has(obj, name) then At(obj, name) else JNull
  }

  predicate IsNumber(value: Json) { value.JInt? || value.JFloat? }

  /** A value as a number, where the source's numeric equality and order apply. */
  function Amount(value: Json): real
    requires IsNumber(value) || value.JBool?
  {
    match value
    case JBool(b) => if b then 1.0 else 0.0
    case JInt(n) => n as real
    case JFloat(x) => x
  }

  /** The source's equality: numbers and flags by amount, objects without regard to order, at every depth. */
  predicate Equal(a: Json, b: Json)
    decreases a
  {
    if (IsNumber(a) || a.JBool?) && (IsNumber(b) || b.JBool?) then Amount(a) == Amount(b)
    else if a.JArray? && b.JArray? then
      |a.items| == |b.items| && forall i :: 0 <= i < |a.items| ==> Equal(a.items[i], b.items[i])
    else if a.JObject? && b.JObject? then
      && |a.members| == |b.members|
      && forall i :: 0 <= i < |a.members| ==> Has(b, a.members[i].name) && Equal(a.members[i].value, At(b, a.members[i].name))
    else a == b
  }

  /** JSON's own equality: as Equal, but a flag is never a number. */
  predicate StrictlyEqual(a: Json, b: Json)
    decreases a
  {
    if IsNumber(a) && IsNumber(b) then Amount(a) == Amount(b)
    else if a.JArray? && b.JArray? then
      |a.items| == |b.items| && forall i :: 0 <= i < |a.items| ==> StrictlyEqual(a.items[i], b.items[i])
    else if a.JObject? && b.JObject? then
      && |a.members| == |b.members|
      && forall i :: 0 <= i < |a.members| ==>
           Has(b, a.members[i].name) && StrictlyEqual(a.members[i].value, At(b, a.members[i].name))
    else a == b
  }

  predicate DistinctNames(members: seq<Member>) { forall i, j :: 0 <= i < j < |members| ==> members[i].name != members[j].name }

  function Names(members: seq<Member>): set<string> { set m | m in members :: m.name }

  lemma {:induction false} NamesCount(members: seq<Member>)
    requires DistinctNames(members)
    ensures |Names(members)| == |members|
  {
    if members != [] {
      var last := |members| - 1;
      var front := members[..last];
      NamesCount(front);
      assert members == front + [members[last]];
      assert Names(members) == Names(front) + {members[last].name};
      assert members[last].name !in Names(front);
    }
  }

  lemma HasMeansName(obj: Json, name: string)
    requires obj.JObject?
    ensures Has(obj, name) <==> name in Names(obj.members)
  {
    var i := Find(obj.members, name);
    if i < |obj.members| {
      assert obj.members[i] in obj.members;
    }
    if name in Names(obj.members) {
      var m :| m in obj.members && m.name == name;
    }
  }

  lemma SameSizeNames(a: set<string>, b: set<string>)
    requires a <= b && |a| == |b|
    ensures a == b
  {
    assert |b - a| == |b| - |a|;
  }

  lemma MembersAreEntries(obj: Json, i: nat)
    requires obj.JObject? && DistinctNames(obj.members) && i < |obj.members|
    ensures Has(obj, obj.members[i].name) && At(obj, obj.members[i].name) == obj.members[i].value
  {
    var k := Find(obj.members, obj.members[i].name);
  }

  /** The second has every entry of the first, with an equal value. */
  ghost predicate HoldsEntries(a: Json, b: Json)
    requires a.JObject? && b.JObject?
  {
    forall name :: Has(a, name) ==> Has(b, name) && Equal(At(a, name), At(b, name))
  }

  lemma EqualHoldsEntries(a: Json, b: Json)
    requires a.JObject? && b.JObject? && Equal(a, b)
    ensures HoldsEntries(a, b)
  {
    forall name | Has(a, name)
      ensures Has(b, name) && Equal(At(a, name), At(b, name))
    {
      var i := Find(a.members, name);
      assert Has(b, a.members[i].name);
    }
  }

  lemma EntriesMakeEqual(a: Json, b: Json)
    requires a.JObject? && b.JObject? && DistinctNames(a.members) && |a.members| == |b.members| && HoldsEntries(a, b)
    ensures Equal(a, b)
  {
    forall i | 0 <= i < |a.members|
      ensures Has(b, a.members[i].name) && Equal(a.members[i].value, At(b, a.members[i].name))
    {
      MembersAreEntries(a, i);
    }
  }

  lemma SameNamesExactlyWhen(a: Json, b: Json)
    requires a.JObject? && b.JObject? && DistinctNames(a.members) && DistinctNames(b.members)
    ensures (forall name :: Has(a, name) <==> Has(b, name)) <==> Names(a.members) == Names(b.members)
    ensures Names(a.members) == Names(b.members) ==> |a.members| == |b.members|
    ensures |a.members| == |b.members| && HoldsEntries(a, b) ==> Names(a.members) == Names(b.members)
  {
    NamesCount(a.members);
    NamesCount(b.members);
    forall name
      ensures Has(a, name) <==> name in Names(a.members)
      ensures Has(b, name) <==> name in Names(b.members)
    {
      HasMeansName(a, name);
      HasMeansName(b, name);
    }
    if |a.members| == |b.members| && HoldsEntries(a, b) {
      SameSizeNames(Names(a.members), Names(b.members));
    }
  }

  /** Objects are equal exactly when they have the same names and equal values under each, in whatever order. */
  lemma ObjectsAreEqualExactlyWhen(a: Json, b: Json)
    requires a.JObject? && b.JObject? && DistinctNames(a.members) && DistinctNames(b.members)
    ensures Equal(a, b) <==>
              && (forall name :: Has(a, name) <==> Has(b, name))
              && forall name :: Has(a, name) ==> Has(b, name) && Equal(At(a, name), At(b, name))
  {
    SameNamesExactlyWhen(a, b);
    if Equal(a, b) {
      EqualHoldsEntries(a, b);
    }
    if HoldsEntries(a, b) && |a.members| == |b.members| {
      EntriesMakeEqual(a, b);
    }
  }
}
