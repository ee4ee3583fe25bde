/** Turning an object graph, cycles and all, into JSON with credentials redacted. */
module Sanitizer {
  import opened Json
  import opened Sorting

  const REDACTED_VALUE := "[REDACTED]"
  const SENSITIVE_FIELD_NAMES: set<string> :=
    {"access_token", "api_key", "authorization", "cookie", "credential", "credentials", "password", "refresh_token", "secret", "token"}

  type Id = nat

  /** A value; objects are shared by identity. `Rendered` is a date, decimal or identifier with its text. */
  datatype Value = Null | Flag(flag: bool) | Whole(integer: int) | Float(number: real) | NonFinite | Str(text: string)
                 | Rendered(rendered: string) | Ref(id: Id)

  /** A mapping with its keys as text, in order; a list or tuple; a set in some order; or a type that is not handled. */
  datatype Node = Mapping(entries: seq<Entry>) | Listing(items: seq<Value>) | Bag(elements: seq<Value>) | Unsupported(typeName: string)

  datatype Entry = Entry(key: string, value: Value)

  type Heap = map<Id, Node>

  predicate InHeap(heap: Heap, value: Value) { value.Ref? ==> value.id in heap }

  predicate NodeInHeap(heap: Heap, node: Node) {
    match node
    case Mapping(entries) => forall i :: 0 <= i < |entries| ==> InHeap(heap, entries[i].value)
    case Listing(items) => forall i :: 0 <= i < |items| ==> InHeap(heap, items[i])
    case Bag(items) => forall i :: 0 <= i < |items| ==> InHeap(heap, items[i])
    case Unsupported(_) => true
  }

  predicate Closed(heap: Heap) { forall id :: id in heap ==> NodeInHeap(heap, heap[id]) }

  /** Lower-casing, and the order by representation that makes sets deterministic. */
  datatype Locale = Locale(lower: string -> string, before: (Json, Json) -> bool)

  predicate Sensitive(key: string, locale: Locale) { locale.lower(key) in SENSITIVE_FIELD_NAMES }

  /** A dictionary entry: a new key goes last, a known one keeps its place. */
  function Put(members: seq<Member>, key: string, value: Json): (more: seq<Member>) {
    var i := Find(members, key);
    if i < |members| then members[i := Member(key, value)] else members + [Member(key, value)]
  }

  function Unknown(typeName: string): Json { JString("<unsupported:" + typeName + ">") }

  // ---------------------------------------------------------------------------------------
  // The specification; `seen` holds the objects being converted.

  function Safe(heap: Heap, value: Value, seen: set<Id>, locale: Locale): Json
    requires Closed(heap) && InHeap(heap, value)
    decreases heap.Keys - seen, 0
  {
    match value
    case Null => JNull
    case Flag(b) => JBool(b)
    case Whole(n) => JInt(n)
    case Str(s) => JString(s)
    case Float(x) => JFloat(x)
    case NonFinite => JString("<non-finite-float>")
    case Rendered(text) => JString(text)
    case Ref(id) =>
      if id in seen then JString("<cycle>")
      else
        assert heap.Keys - (seen + {id}) < heap.Keys - seen by { assert id in heap.Keys - seen; }
        assert NodeInHeap(heap, heap[id]);
        match heap[id]
        case Mapping(entries) => JObject(SafeMembers(heap, entries, seen + {id}, locale))
        case Listing(items) => JArray(SafeItems(heap, items, seen + {id}, locale))
        case Bag(items) => JArray(Sorted(SafeItems(heap, items, seen + {id}, locale), locale.before))
        case Unsupported(typeName) => Unknown(typeName)
  }

  function SafeEntry(heap: Heap, entry: Entry, seen: set<Id>, locale: Locale): Json
    requires Closed(heap) && InHeap(heap, entry.value)
    decreases heap.Keys - seen, 1
  {
    if Sensitive(entry.key, locale) then JString(REDACTED_VALUE) else Safe(heap, entry.value, seen, locale)
  }

  function SafeMembers(heap: Heap, entries: seq<Entry>, seen: set<Id>, locale: Locale): seq<Member>
    requires Closed(heap) && NodeInHeap(heap, Mapping(entries))
    decreases heap.Keys - seen, 2, |entries|
  {
    if entries == [] then []
    else
      var last := |entries| - 1;
      Put(SafeMembers(heap, entries[..last], seen, locale), entries[last].key, SafeEntry(heap, entries[last], seen, locale))
  }

  function SafeItems(heap: Heap, items: seq<Value>, seen: set<Id>, locale: Locale): (safe: seq<Json>)
    requires Closed(heap) && NodeInHeap(heap, Listing(items))
    decreases heap.Keys - seen, 2, |items|
  {
    if items == [] then []
    else
      var last := |items| - 1;
      SafeItems(heap, items[..last], seen, locale) + [Safe(heap, items[last], seen, locale)]
  }

  // ---------------------------------------------------------------------------------------
  // The code, which shares one mutable set of the objects on the current path.

  class Converter {
    const locale: Locale
    var seen: set<Id>

    constructor (locale: Locale)
      ensures seen == {} && this.locale == locale
    {
      this.locale := locale;
      seen := {};
    }

    /** The set is the same again after every conversion. */
    method ToJsonSafe(heap: Heap, value: Value) returns (json: Json)
      requires Closed(heap) && InHeap(heap, value)
      modifies this
      ensures seen == old(seen) && json == Safe(heap, value, seen, locale)
      decreases heap.Keys - seen, 0
    {
      match value
      case Null => json := JNull;
      case Flag(b) => json := JBool(b);
      case Whole(n) => json := JInt(n);
      case Str(s) => json := JString(s);
      case Float(x) => json := JFloat(x);
      case NonFinite => json := JString("<non-finite-float>");
      case Rendered(text) => json := JString(text);
      case Ref(id) =>
        if id in seen {
          return JString("<cycle>");
        }
        ghost var outer := seen;
        assert NodeInHeap(heap, heap[id]);
        assert heap.Keys - (seen + {id}) < heap.Keys - seen by {
          assert id in heap.Keys - seen;
        }
        match heap[id] {
          case Mapping(entries) =>
            seen := seen + {id};
            var members := ConvertMembers(heap, entries);
            seen := seen - {id};
            json := JObject(members);
          case Listing(items) =>
            seen := seen + {id};
            var safe := ConvertItems(heap, items);
            seen := seen - {id};
            json := JArray(safe);
          case Bag(items) =>
            seen := seen + {id};
            var safe := ConvertItems(heap, items);
            seen := seen - {id};
            json := JArray(Sorted(safe, locale.before));
          case Unsupported(typeName) =>
            json := JString("<unsupported:" + typeName + ">");
        }
        assert seen == outer;
    }

    method ConvertMembers(heap: Heap, entries: seq<Entry>) returns (members: seq<Member>)
      requires Closed(heap) && NodeInHeap(heap, Mapping(entries))
      modifies this
      ensures seen == old(seen) && members == SafeMembers(heap, entries, seen, locale)
      decreases heap.Keys - seen, 1
    {
      members := [];
      for i := 0 to |entries|
        invariant seen == old(seen) && members == SafeMembers(heap, entries[..i], seen, locale)
      {
        assert entries[..i + 1][..i] == entries[..i];
        var json;
        if locale.lower(entries[i].key) in SENSITIVE_FIELD_NAMES {
          json := JString(REDACTED_VALUE);
        } else {
          json := ToJsonSafe(heap, entries[i].value);
        }
        members := Put(members, entries[i].key, json);
      }
      assert entries[..|entries|] == entries;
    }

    method ConvertItems(heap: Heap, items: seq<Value>) returns (safe: seq<Json>)
      requires Closed(heap) && NodeInHeap(heap, Listing(items))
      modifies this
      ensures seen == old(seen) && safe == SafeItems(heap, items, seen, locale)
      decreases heap.Keys - seen, 1
    {
      safe := [];
      for i := 0 to |items|
        invariant seen == old(seen) && safe == SafeItems(heap, items[..i], seen, locale)
      {
        assert items[..i + 1][..i] == items[..i];
        var json := ToJsonSafe(heap, items[i]);
        safe := safe + [json];
      }
      assert items[..|items|] == items;
    }
  }

  // ---------------------------------------------------------------------------------------
  // Redaction at every depth.

  predicate UniqueNames(members: seq<Member>) { forall i, j :: 0 <= i < j < |members| ==> members[i].name != members[j].name }

  /** Every sensitive member, at every depth, holds the marker, and no object names a member twice. */
  predicate Clean(json: Json, locale: Locale) {
    match json
    case JArray(items) => forall i :: 0 <= i < |items| ==> Clean(items[i], locale)
    case JObject(members) =>
      && UniqueNames(members)
      && forall i :: 0 <= i < |members| ==>
           if Sensitive(members[i].name, locale) then members[i].value == JString(REDACTED_VALUE) else Clean(members[i].value, locale)
    case _ => true
  }

  /** Assigning an entry: it has the new value where it first stood, or stands last; every other entry stays. */
  lemma {:induction false} PutAssigns(members: seq<Member>, key: string, value: Json, name: string)
    ensures var more := Put(members, key, value);
            && |members| <= |more| <= |members| + 1 && (forall i :: 0 <= i < |members| ==> more[i].name == members[i].name)
            && Get(JObject(more), name) == (if name == key then value else Get(JObject(members), name))
            && (Has(JObject(more), name) <==> name == key || Has(JObject(members), name))
  {
    var more := Put(members, key, value);
    var i, j, k := Find(members, key), Find(more, name), Find(members, name);
    if i < |members| {
      assert forall m :: 0 <= m < |members| ==> more[m].name == members[m].name;
      assert j == k;
    } else if name == key {
      assert more[|members|].name == key;
      assert j == |members|;
    } else {
      assert forall m :: 0 <= m < |members| ==> more[m] == members[m];
      assert k < |members| ==> j == k;
    }
  }

  lemma PutKeepsClean(members: seq<Member>, key: string, value: Json, locale: Locale)
    requires Clean(JObject(members), locale)
    requires if Sensitive(key, locale) then value == JString(REDACTED_VALUE) else Clean(value, locale)
    ensures Clean(JObject(Put(members, key, value)), locale)
  {
  }

  /** Whatever the graph, the output is clean. */
  lemma {:induction false} OutputIsClean(heap: Heap, value: Value, seen: set<Id>, locale: Locale)
    requires Closed(heap) && InHeap(heap, value)
    ensures Clean(Safe(heap, value, seen, locale), locale)
    decreases heap.Keys - seen, 0
  {
    if value.Ref? && value.id !in seen {
      assert value.id in heap.Keys - seen;
      var inner := seen + {value.id};
      assert NodeInHeap(heap, heap[value.id]);
      match heap[value.id]
      case Mapping(entries) => MembersAreClean(heap, entries, inner, locale);
      case Listing(items) => ItemsAreClean(heap, items, inner, locale);
      case Bag(items) =>
        ItemsAreClean(heap, items, inner, locale);
        var safe := SafeItems(heap, items, inner, locale);
        SortedPermutes(safe, locale.before);
      case Unsupported(_) =>
    }
  }

  lemma {:induction false} MembersAreClean(heap: Heap, entries: seq<Entry>, seen: set<Id>, locale: Locale)
    requires Closed(heap) && NodeInHeap(heap, Mapping(entries))
    ensures Clean(JObject(SafeMembers(heap, entries, seen, locale)), locale)
    decreases heap.Keys - seen, 1, |entries|
  {
    if entries != [] {
      var last := |entries| - 1;
      MembersAreClean(heap, entries[..last], seen, locale);
      OutputIsClean(heap, entries[last].value, seen, locale);
      PutKeepsClean(SafeMembers(heap, entries[..last], seen, locale), entries[last].key,
                    SafeEntry(heap, entries[last], seen, locale), locale);
    }
  }

  lemma {:induction false} ItemsAreClean(heap: Heap, items: seq<Value>, seen: set<Id>, locale: Locale)
    requires Closed(heap) && NodeInHeap(heap, Listing(items))
    ensures forall json :: json in SafeItems(heap, items, seen, locale) ==> Clean(json, locale)
    decreases heap.Keys - seen, 1, |items|
  {
    if items != [] {
      var last := |items| - 1;
      ItemsAreClean(heap, items[..last], seen, locale);
      OutputIsClean(heap, items[last], seen, locale);
    }
  }

  // ---------------------------------------------------------------------------------------
  // Faithfulness: a tree is redacted and otherwise unchanged, however its objects are shared.

  /** The value, with the objects it leads to, is this tree; no cycle is. */
  predicate Denotes(heap: Heap, value: Value, json: Json)
    decreases json
  {
    match json
    case JNull => value.Null?
    case JBool(b) => value == Flag(b)
    case JInt(n) => value == Whole(n)
    case JFloat(x) => value == Float(x)
    case JString(s) => value == Str(s)
    case JArray(items) =>
      && value.Ref? && value.id in heap && heap[value.id].Listing?
      && var values := heap[value.id].items;
         |values| == |items| && forall i :: 0 <= i < |items| ==> Denotes(heap, values[i], items[i])
    case JObject(members) =>
      && value.Ref? && value.id in heap && heap[value.id].Mapping?
      && var entries := heap[value.id].entries;
         |entries| == |members|
         && forall i :: 0 <= i < |members| ==> entries[i].key == members[i].name && Denotes(heap, entries[i].value, members[i].value)
  }

  /** No object of the tree names a member twice. */
  predicate WellNamed(json: Json) {
    match json
    case JArray(items) => forall i :: 0 <= i < |items| ==> WellNamed(items[i])
    case JObject(members) => UniqueNames(members) && forall i :: 0 <= i < |members| ==> WellNamed(members[i].value)
    case _ => true
  }

  /** The tree with every sensitive member replaced by the marker. */
  function Redact(json: Json, locale: Locale): Json {
    match json
    case JArray(items) => JArray(RedactItems(items, locale))
    case JObject(members) => JObject(RedactMembers(members, locale))
    case _ => json
  }

  function RedactItems(items: seq<Json>, locale: Locale): (redacted: seq<Json>)
    ensures |redacted| == |items| && forall i :: 0 <= i < |items| ==> redacted[i] == Redact(items[i], locale)
  {
    seq(|items|, i requires 0 <= i < |items| => Redact(items[i], locale))
  }

  function RedactMembers(members: seq<Member>, locale: Locale): (redacted: seq<Member>)
    ensures |redacted| == |members| && forall i :: 0 <= i < |members| ==> redacted[i] == RedactMember(members[i], locale)
  {
    seq(|members|, i requires 0 <= i < |members| => RedactMember(members[i], locale))
  }

  function RedactMember(member: Member, locale: Locale): Member {
    Member(member.name, if Sensitive(member.name, locale) then JString(REDACTED_VALUE) else Redact(member.value, locale))
  }

  // ---------------------------------------------------------------------------------------
  // Every tree is some object graph's.

  predicate Extends(heap: Heap, more: Heap) { forall id :: id in heap ==> id in more && more[id] == heap[id] }

  lemma {:induction false} DenotesInMore(heap: Heap, more: Heap, value: Value, json: Json)
    requires Extends(heap, more) && Denotes(heap, value, json)
    ensures Denotes(more, value, json)
    decreases json
  {
    match json
    case JArray(items) =>
      forall i | 0 <= i < |items|
        ensures Denotes(more, more[value.id].items[i], items[i])
      {
        DenotesInMore(heap, more, heap[value.id].items[i], items[i]);
      }
    case JObject(members) =>
      forall i | 0 <= i < |members|
        ensures Denotes(more, more[value.id].entries[i].value, members[i].value)
      {
        DenotesInMore(heap, more, heap[value.id].entries[i].value, members[i].value);
      }
    case _ =>
  }

  /** A closed heap of objects numbered from `from` up to `to`. */
  predicate Between(heap: Heap, from: Id, to: Id) { Closed(heap) && from <= to && forall id :: id in heap ==> from <= id < to }

  lemma JoinHeaps(a: Heap, b: Heap, from: Id, mid: Id, to: Id)
    requires Between(a, from, mid) && Between(b, mid, to)
    ensures Between(a + b, from, to) && Extends(a, a + b) && Extends(b, a + b)
  {
    var both := a + b;
    forall id | id in both
      ensures NodeInHeap(both, both[id])
    {
      assert if id in b then NodeInHeap(b, b[id]) else NodeInHeap(a, a[id]);
    }
  }

  lemma AddNode(heap: Heap, from: Id, to: Id, node: Node)
    requires Between(heap, from, to) && NodeInHeap(heap, node)
    ensures Between(heap[to := node], from, to + 1) && Extends(heap, heap[to := node])
  {
    var more := heap[to := node];
    forall id | id in more
      ensures NodeInHeap(more, more[id])
    {
      assert id != to ==> NodeInHeap(heap, heap[id]);
    }
  }

  /** Each of the values denotes the tree in its place. */
  predicate AllDenote(heap: Heap, values: seq<Value>, trees: seq<Json>) {
    |values| == |trees| && forall i :: 0 <= i < |trees| ==> InHeap(heap, values[i]) && Denotes(heap, values[i], trees[i])
  }

  lemma {:induction false} TreesAreDenoted(trees: seq<Json>, whole: Json, from: Id) returns (heap: Heap, values: seq<Value>, to: Id)
    requires forall i :: 0 <= i < |trees| ==> trees[i] < whole
    ensures Between(heap, from, to) && AllDenote(heap, values, trees)
    decreases whole, 0, |trees|
  {
    heap, values, to := map[], [], from;
    if trees != [] {
      var last := |trees| - 1;
      var a, front, mid := TreesAreDenoted(trees[..last], whole, from);
      var b, value, end := TreeIsDenoted(trees[last], mid);
      JoinHeaps(a, b, from, mid, end);
      heap, values, to := a + b, front + [value], end;
      DenotesInMore(b, heap, value, trees[last]);
      forall i | 0 <= i < last
        ensures InHeap(heap, values[i]) && Denotes(heap, values[i], trees[i])
      {
        assert trees[..last][i] == trees[i];
        DenotesInMore(a, heap, front[i], trees[i]);
      }
    }
  }

  /** For every tree there is an object graph that denotes it. */
  lemma {:induction false} TreeIsDenoted(json: Json, from: Id) returns (heap: Heap, value: Value, to: Id)
    ensures Between(heap, from, to) && InHeap(heap, value) && Denotes(heap, value, json)
    decreases json, 1, 0
  {
    heap, to := map[], from;
    match json
    case JNull => value := Null;
    case JBool(b) => value := Flag(b);
    case JInt(n) => value := Whole(n);
    case JFloat(x) => value := Float(x);
    case JString(s) => value := Str(s);
    case JArray(items) =>
      var parts, values, end := TreesAreDenoted(items, json, from);
      heap, value, to := WithNode(parts, Listing(values), values, items, from, end);
    case JObject(members) =>
      var trees := seq(|members|, i requires 0 <= i < |members| => members[i].value);
      var parts, values, end := TreesAreDenoted(trees, json, from);
      var entries := seq(|members|, i requires 0 <= i < |members| => Entry(members[i].name, values[i]));
      heap, value, to := WithNode(parts, Mapping(entries), values, trees, from, end);
  }

  lemma WithNode(parts: Heap, node: Node, values: seq<Value>, trees: seq<Json>, from: Id, end: Id) returns (heap: Heap, value: Value, to: Id)
    requires Between(parts, from, end) && NodeInHeap(parts, node) && AllDenote(parts, values, trees)
    ensures Between(heap, from, to) && value == Ref(end) && end in heap && heap[end] == node && AllDenote(heap, values, trees)
  {
    AddNode(parts, from, end, node);
    heap, value, to := parts[end := node], Ref(end), end + 1;
    forall i | 0 <= i < |trees|
      ensures InHeap(heap, values[i]) && Denotes(heap, values[i], trees[i])
    {
      DenotesInMore(parts, heap, values[i], trees[i]);
    }
  }

  /** A value denotes at most one tree. */
  lemma {:induction false} DenotesOne(heap: Heap, value: Value, a: Json, b: Json)
    requires Denotes(heap, value, a) && Denotes(heap, value, b)
    ensures a == b
    decreases a
  {
    match a
    case JArray(items) =>
      forall i | 0 <= i < |items|
        ensures items[i] == b.items[i]
      {
        DenotesOne(heap, heap[value.id].items[i], items[i], b.items[i]);
      }
    case JObject(members) =>
      forall i | 0 <= i < |members|
        ensures members[i] == b.members[i]
      {
        DenotesOne(heap, heap[value.id].entries[i].value, members[i].value, b.members[i].value);
      }
    case _ =>
  }

  /** The objects on the path denote trees that properly contain this one. */
  ghost predicate Enclosing(heap: Heap, trees: map<Id, Json>, json: Json) {
    forall id :: id in trees ==> Denotes(heap, Ref(id), trees[id]) && json < trees[id]
  }

  /** Redacting one more member of an object that names each once. */
  lemma RedactOneMore(members: seq<Member>, n: nat, locale: Locale)
    requires UniqueNames(members) && n < |members|
    ensures var next := RedactMember(members[n], locale);
            RedactMembers(members[..n + 1], locale) == Put(RedactMembers(members[..n], locale), next.name, next.value)
  {
    var earlier := RedactMembers(members[..n], locale);
    assert forall i :: 0 <= i < n ==> earlier[i].name == members[i].name;
    PutNewGoesLast(earlier, members[n].name, RedactMember(members[n], locale).value);
  }

  lemma PutNewGoesLast(members: seq<Member>, key: string, value: Json)
    requires forall i :: 0 <= i < |members| ==> members[i].name != key
    ensures Put(members, key, value) == members + [Member(key, value)]
  {
  }

  /** The objects on the path denote this tree or trees that contain it. */
  ghost predicate EnclosingOrSame(heap: Heap, trees: map<Id, Json>, json: Json) {
    forall id :: id in trees ==> Denotes(heap, Ref(id), trees[id]) && (json < trees[id] || json == trees[id])
  }

  /** An object that denotes a tree is not on the path to it. */
  lemma EnterTree(heap: Heap, id: Id, json: Json, trees: map<Id, Json>)
    requires Denotes(heap, Ref(id), json) && Enclosing(heap, trees, json)
    ensures id !in trees && EnclosingOrSame(heap, trees[id := json], json) && trees[id := json].Keys == trees.Keys + {id}
  {
    if id in trees {
      DenotesOne(heap, Ref(id), json, trees[id]);
      assert false;
    }
  }

  lemma EnterChild(heap: Heap, trees: map<Id, Json>, json: Json, child: Json)
    requires EnclosingOrSame(heap, trees, json) && child < json
    ensures Enclosing(heap, trees, child)
  {
  }

  /** Converting a value that denotes a tree gives the redacted tree. */
  lemma {:induction false} TreesAreRedacted(heap: Heap, value: Value, json: Json, trees: map<Id, Json>, locale: Locale)
    requires Closed(heap) && InHeap(heap, value)
    requires Denotes(heap, value, json) && WellNamed(json) && Enclosing(heap, trees, json)
    ensures Safe(heap, value, trees.Keys, locale) == Redact(json, locale)
    decreases json, 1
  {
    if value.Ref? {
      EnterTree(heap, value.id, json, trees);
      var inner := trees[value.id := json];
      assert NodeInHeap(heap, heap[value.id]);
      match json
      case JArray(items) =>
        var values := heap[value.id].items;
        ItemsAreRedacted(heap, json, values, |items|, inner, locale);
        assert values[..|items|] == values && items[..|items|] == items;
      case JObject(members) =>
        var entries := heap[value.id].entries;
        MembersAreRedacted(heap, json, entries, |members|, inner, locale);
        assert entries[..|members|] == entries && members[..|members|] == members;
    }
  }

  lemma RedactOneMoreItem(items: seq<Json>, n: nat, locale: Locale)
    requires n < |items|
    ensures RedactItems(items[..n + 1], locale) == RedactItems(items[..n], locale) + [Redact(items[n], locale)]
  {
  }

  lemma {:induction false} ItemsAreRedacted(heap: Heap, json: Json, values: seq<Value>, n: nat, trees: map<Id, Json>, locale: Locale)
    requires Closed(heap) && NodeInHeap(heap, Listing(values))
    requires json.JArray? && WellNamed(json) && n <= |json.items| == |values| && EnclosingOrSame(heap, trees, json)
    requires forall i :: 0 <= i < n ==> Denotes(heap, values[i], json.items[i])
    ensures SafeItems(heap, values[..n], trees.Keys, locale) == RedactItems(json.items[..n], locale)
    decreases json, 0, n
  {
    if n > 0 {
      var last := n - 1;
      ItemsAreRedacted(heap, json, values, last, trees, locale);
      assert values[..n][..last] == values[..last];
      EnterChild(heap, trees, json, json.items[last]);
      TreesAreRedacted(heap, values[last], json.items[last], trees, locale);
      RedactOneMoreItem(json.items, last, locale);
    }
  }

  lemma {:induction false} MembersAreRedacted(heap: Heap, json: Json, entries: seq<Entry>, n: nat, trees: map<Id, Json>, locale: Locale)
    requires Closed(heap) && NodeInHeap(heap, Mapping(entries))
    requires json.JObject? && WellNamed(json) && n <= |json.members| == |entries| && EnclosingOrSame(heap, trees, json)
    requires forall i :: 0 <= i < n ==>
               entries[i].key == json.members[i].name && Denotes(heap, entries[i].value, json.members[i].value)
    ensures SafeMembers(heap, entries[..n], trees.Keys, locale) == RedactMembers(json.members[..n], locale)
    decreases json, 0, n
  {
    if n > 0 {
      var last := n - 1;
      MembersAreRedacted(heap, json, entries, last, trees, locale);
      assert entries[..n][..last] == entries[..last];
      EntryIsRedacted(heap, json, entries[last], last, trees, locale);
      RedactOneMore(json.members, last, locale);
    }
  }

  lemma EntryIsRedacted(heap: Heap, json: Json, entry: Entry, i: nat, trees: map<Id, Json>, locale: Locale)
    requires Closed(heap) && InHeap(heap, entry.value)
    requires json.JObject? && WellNamed(json) && i < |json.members| && EnclosingOrSame(heap, trees, json)
    requires entry.key == json.members[i].name && Denotes(heap, entry.value, json.members[i].value)
    ensures SafeEntry(heap, entry, trees.Keys, locale) == RedactMember(json.members[i], locale).value
    decreases json, 0, 0
  {
    EnterChild(heap, trees, json, json.members[i].value);
    TreesAreRedacted(heap, entry.value, json.members[i].value, trees, locale);
  }

  lemma {:induction false} CleanTreesStay(json: Json, locale: Locale)
    requires Clean(json, locale)
    ensures Redact(json, locale) == json && WellNamed(json)
  {
    match json
    case JArray(items) =>
      forall i | 0 <= i < |items|
        ensures Redact(items[i], locale) == items[i] && WellNamed(items[i])
      {
        CleanTreesStay(items[i], locale);
      }
    case JObject(members) =>
      forall i | 0 <= i < |members|
        ensures RedactMember(members[i], locale) == members[i] && WellNamed(members[i].value)
      {
        if !Sensitive(members[i].name, locale) {
          CleanTreesStay(members[i].value, locale);
        }
      }
    case _ =>
  }

  /** Any graph, any object graph for its output: converting again gives the same output. */
  lemma ConvertingTwiceIsConvertingOnce(heap: Heap, value: Value, heap2: Heap, value2: Value, locale: Locale)
    requires Closed(heap) && InHeap(heap, value) && Closed(heap2) && InHeap(heap2, value2)
    requires Denotes(heap2, value2, Safe(heap, value, {}, locale))
    ensures Safe(heap2, value2, {}, locale) == Safe(heap, value, {}, locale)
  {
    var out := Safe(heap, value, {}, locale);
    OutputIsClean(heap, value, {}, locale);
    CleanTreesStay(out, locale);
    var none: map<Id, Json> := map[];
    TreesAreRedacted(heap2, value2, out, none, locale);
    assert none.Keys == {};
  }
}
