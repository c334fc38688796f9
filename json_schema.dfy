/**
 * JsonSchemaGenerator of src/actions/remoteUI/completeBody/ui.ts: derives a
 * schema in the style of JSON Schema draft 03 (draft-zyp-json-schema-03) from
 * an example JSON value. The schema says `type` of every value visited, the
 * `properties` of objects (section 5.2, each with `required` false, section
 * 5.7) and the `items` of arrays (section 5.5), taken from the first element.
 *
 * A value is what JSON.parse returns; an object's members are listed in the
 * order of Object.keys. The schema objects the generator fills in place are
 * values here: each step returns the updated schema.
 */
module JsonSchema {
  import opened Wrappers

  datatype Json =
    | JNull
    | JBool(b: bool)
    | JNumber(n: real)
    | JString(s: string)
    | JArray(elems: seq<Json>)
    | JObject(members: seq<(string, Json)>)

  /** A schema object; an absent key is `None`. */
  datatype Schema = Schema(
    required: Option<bool>,
    schemaUri: Option<string>,
    typeName: Option<string>,
    properties: Option<seq<Property>>,
    // `items`: a list whose entries may be `undefined`
    items: Option<seq<Option<Schema>>>)

  datatype Property = Property(name: string, schema: Schema)

  /** `{}` */
  const Fresh := Schema(None, None, None, None, None)

  const DraftUri := "http://json-schema.org/draft-03/schema"

  /**
   * How `properties[propName]` is looked up. The source indexes a plain
   * object, so a name of an Object.prototype member finds that member.
   */
  datatype Lookup = OwnKeysOnly | PrototypeChain

  /** The names a plain JavaScript object inherits from Object.prototype. */
  const InheritedNames: set<string> := {
    "constructor", "hasOwnProperty", "isPrototypeOf", "propertyIsEnumerable",
    "toLocaleString", "toString", "valueOf", "__proto__",
    "__defineGetter__", "__defineSetter__", "__lookupGetter__", "__lookupSetter__" }

  /** detectType: "array" for arrays, otherwise JavaScript's `typeof`, which calls null an object. */
  function DetectType(v: Json): string {
    match v
    case JArray(_) => "array"
    case JNull => "object"
    case JObject(_) => "object"
    case JBool(_) => "boolean"
    case JNumber(_) => "number"
    case JString(_) => "string"
  }

  /** The values JavaScript reads as false. */
  predicate Falsy(v: Json) {
    v == JNull || v == JBool(false) || v == JNumber(0.0) || v == JString("")
  }

  /** The index of the property named `name`, if there is one. */
  function FindProperty(props: seq<Property>, name: string): (r: Option<nat>)
    ensures r.Some? ==> r.value < |props| && props[r.value].name == name
    ensures r.None? ==> forall i :: 0 <= i < |props| ==> props[i].name != name
  {
    if props == [] then None
    else match FindProperty(props[..|props| - 1], name)
      case Some(i) => Some(i)
      case None => if props[|props| - 1].name == name then Some(|props| - 1) else None
  }

  /** pass: sets `type`, then describes the members of an object or the first element of an array. */
  function Pass(mode: Lookup, v: Json, p: Schema): Schema
    decreases v, 2
  {
    var typed := p.(typeName := Some(DetectType(v)));
    if Falsy(v) then typed
    else match v
      case JArray(es) => PassArray(mode, v, typed)
      case JObject(ms) => PassMembers(mode, v, |ms|, typed)
      case _ => typed
  }

  /** passArray: `items` gets one more entry, the schema of element 0, or `undefined` for an empty array. */
  function PassArray(mode: Lookup, v: Json, p: Schema): Schema
    requires v.JArray?
    decreases v, 1
  {
    var items := if p.items.Some? then p.items.value else [];
    var first := if v.elems == [] then None else Some(Pass(mode, v.elems[0], Fresh));
    p.(items := Some(items + [first]))
  }

  /** passObject over the first n keys of object v. */
  function PassMembers(mode: Lookup, v: Json, n: nat, sch: Schema): Schema
    requires v.JObject? && n <= |v.members|
    decreases v, 1, n
  {
    if n == 0 then sch else RegisterProperty(mode, v, n - 1, PassMembers(mode, v, n - 1, sch))
  }

  /**
   * registerProperty: creates `properties` if it is missing, reuses the entry
   * of that name or creates one, sets its `required` to false and passes the
   * value into it. Under PrototypeChain, an inherited name finds the
   * inherited member, so the entry is never created.
   */
  function RegisterProperty(mode: Lookup, v: Json, i: nat, sch: Schema): Schema
    requires v.JObject? && i < |v.members|
    decreases v, 0
  {
    var (name, value) := v.members[i];
    var props := if sch.properties.Some? then sch.properties.value else [];
    match FindProperty(props, name)
    case Some(j) =>
      var entry := props[j].schema.(required := Some(false));
      sch.(properties := Some(props[j := Property(name, Pass(mode, value, entry))]))
    case None =>
      if mode == PrototypeChain && name in InheritedNames then sch.(properties := Some(props))
      else
        var entry := Fresh.(required := Some(false));
        sch.(properties := Some(props + [Property(name, Pass(mode, value, entry))]))
  }

  /** generateSchema: `required` true and the draft-03 `$schema`, then the pass over the value. */
  function GenerateSchemaWith(mode: Lookup, v: Json): Schema {
    Pass(mode, v, Fresh.(required := Some(true), schemaUri := Some(DraftUri)))
  }

  /** The generator as it is meant to work: every own key gets its entry. */
  function GenerateSchema(v: Json): Schema {
    GenerateSchemaWith(OwnKeysOnly, v)
  }

  /** The generator as written, looking entries up through the prototype chain. */
  function GenerateSchemaAsWritten(v: Json): Schema {
    GenerateSchemaWith(PrototypeChain, v)
  }

  // ---------------------------------------------------------------------------
  // Properties
  // ---------------------------------------------------------------------------

  /** The top-level schema is required and names draft 03. */
  lemma TopLevel(mode: Lookup, v: Json)
    ensures GenerateSchemaWith(mode, v).required == Some(true)
    ensures GenerateSchemaWith(mode, v).schemaUri == Some("http://json-schema.org/draft-03/schema")
  {
    var top := Fresh.(required := Some(true), schemaUri := Some(DraftUri));
    PassKeepsRequired(mode, v, top);
  }

  /** pass sets `type` and leaves `required` and `$schema` alone. */
  lemma PassKeepsRequired(mode: Lookup, v: Json, p: Schema)
    ensures Pass(mode, v, p).required == p.required && Pass(mode, v, p).schemaUri == p.schemaUri
    ensures Pass(mode, v, p).typeName == Some(DetectType(v))
  {
    if !Falsy(v) && v.JObject? {
      PassMembersKeeps(mode, v, |v.members|, p.(typeName := Some(DetectType(v))));
    }
  }

  lemma {:induction false} PassMembersKeeps(mode: Lookup, v: Json, n: nat, sch: Schema)
    requires v.JObject? && n <= |v.members|
    ensures var r := PassMembers(mode, v, n, sch);
      r.required == sch.required && r.schemaUri == sch.schemaUri && r.typeName == sch.typeName && r.items == sch.items
  {
    if n > 0 {
      PassMembersKeeps(mode, v, n - 1, sch);
      RegisterKeeps(mode, v, n - 1, PassMembers(mode, v, n - 1, sch));
    }
  }

  /** registerProperty touches only `properties`. */
  lemma RegisterKeeps(mode: Lookup, v: Json, i: nat, sch: Schema)
    requires v.JObject? && i < |v.members|
    ensures var r := RegisterProperty(mode, v, i, sch);
      r.required == sch.required && r.schemaUri == sch.schemaUri && r.typeName == sch.typeName && r.items == sch.items
  {
  }

  /** A falsy value (null, false, 0, "") gets only its `type`; nothing else changes. */
  lemma FalsyGetsOnlyType(mode: Lookup, v: Json, p: Schema)
    requires Falsy(v)
    ensures Pass(mode, v, p) == p.(typeName := Some(DetectType(v)))
    ensures v == JNull ==> Pass(mode, v, p).typeName == Some("object")
  {
  }

  /**
   * An array gets `items` holding one schema, that of element 0 only, or
   * `undefined` when it is empty. This holds for every schema the pass can
   * start from (the top-level one, a property entry, an element's `{}`): none
   * has `properties` or `items` yet, and `required` and `$schema` stay.
   */
  lemma ArrayItems(mode: Lookup, es: seq<Json>, p: Schema)
    requires p.properties.None? && p.items.None?
    ensures var s := Pass(mode, JArray(es), p);
      s.typeName == Some("array") && s.properties.None?
      && s.required == p.required && s.schemaUri == p.schemaUri
      && s.items == Some([if es == [] then None else Some(Pass(mode, es[0], Fresh))])
  {
    var v := JArray(es);
    assert !Falsy(v);
    assert Pass(mode, v, p) == PassArray(mode, v, p.(typeName := Some("array")));
    var first: Option<Schema> := if es == [] then None else Some(Pass(mode, es[0], Fresh));
    assert [] + [first] == [first];
  }

  /** No key appears twice, as in every object JSON.parse returns. */
  predicate DistinctKeys(ms: seq<(string, Json)>) {
    forall i, j :: 0 <= i < j < |ms| ==> ms[i].0 != ms[j].0
  }

  /** The entry registerProperty makes for a value. */
  function Entry(mode: Lookup, value: Json): Schema {
    Pass(mode, value, Fresh.(required := Some(false)))
  }

  /** One entry per key, in key order, each `required` false with the schema of its value. */
  function Entries(mode: Lookup, ms: seq<(string, Json)>): (r: seq<Property>)
    ensures |r| == |ms|
    ensures forall i :: 0 <= i < |ms| ==> r[i].name == ms[i].0
  {
    seq(|ms|, i requires 0 <= i < |ms| => Property(ms[i].0, Entry(mode, ms[i].1)))
  }

  lemma {:induction false} PassMembersEntries(v: Json, n: nat, sch: Schema)
    requires v.JObject? && n <= |v.members| && DistinctKeys(v.members) && sch.properties.None?
    ensures var r := PassMembers(OwnKeysOnly, v, n, sch);
      r.properties == (if n == 0 then None else Some(Entries(OwnKeysOnly, v.members[..n])))
  {
    if n > 0 {
      PassMembersEntries(v, n - 1, sch);
      var before := PassMembers(OwnKeysOnly, v, n - 1, sch);
      var props := Entries(OwnKeysOnly, v.members[..n - 1]);
      NextKeyIsNew(v.members, n);
      RegisterNewKey(v, n - 1, before, props);
      EntriesSnoc(v.members, n);
    }
  }

  /** With distinct keys, key n - 1 has no entry among those of the keys before it. */
  lemma NextKeyIsNew(ms: seq<(string, Json)>, n: nat)
    requires 0 < n <= |ms| && DistinctKeys(ms)
    ensures FindProperty(Entries(OwnKeysOnly, ms[..n - 1]), ms[n - 1].0).None?
  {
    var props := Entries(OwnKeysOnly, ms[..n - 1]);
    forall i | 0 <= i < |props| ensures props[i].name != ms[n - 1].0 {
      assert props[i].name == ms[i].0;
    }
  }

  /** Registering a key not yet in `properties` appends its entry. */
  lemma RegisterNewKey(v: Json, i: nat, sch: Schema, props: seq<Property>)
    requires v.JObject? && i < |v.members|
    requires props == (if sch.properties.Some? then sch.properties.value else [])
    requires FindProperty(props, v.members[i].0).None?
    ensures RegisterProperty(OwnKeysOnly, v, i, sch).properties
      == Some(props + [Property(v.members[i].0, Entry(OwnKeysOnly, v.members[i].1))])
  {
  }

  lemma EntriesSnoc(ms: seq<(string, Json)>, n: nat)
    requires 0 < n <= |ms|
    ensures Entries(OwnKeysOnly, ms[..n]) == Entries(OwnKeysOnly, ms[..n - 1]) + [Property(ms[n - 1].0, Entry(OwnKeysOnly, ms[n - 1].1))]
  {
  }

  /**
   * A non-empty object gets `properties` with one entry per key, in key
   * order, each `required` false with the schema of its value; an empty
   * object gets no `properties`. As for arrays, this holds for every start
   * schema without `properties` or `items`.
   */
  lemma ObjectProperties(ms: seq<(string, Json)>, p: Schema)
    requires DistinctKeys(ms) && p.properties.None? && p.items.None?
    ensures var s := Pass(OwnKeysOnly, JObject(ms), p);
      s.typeName == Some("object") && s.items.None?
      && s.required == p.required && s.schemaUri == p.schemaUri
      && s.properties == (if ms == [] then None else Some(Entries(OwnKeysOnly, ms)))
  {
    var v := JObject(ms);
    var typed := p.(typeName := Some("object"));
    PassMembersEntries(v, |ms|, typed);
    PassMembersKeeps(OwnKeysOnly, v, |ms|, typed);
    assert ms[..|ms|] == ms;
  }

  /** The whole schema of a top-level object: required, draft-03, one entry per key. */
  lemma GenerateObject(ms: seq<(string, Json)>)
    requires DistinctKeys(ms)
    ensures var s := GenerateSchema(JObject(ms));
      s.required == Some(true) && s.schemaUri == Some(DraftUri) && s.typeName == Some("object")
      && s.properties == (if ms == [] then None else Some(Entries(OwnKeysOnly, ms)))
  {
    ObjectProperties(ms, Fresh.(required := Some(true), schemaUri := Some(DraftUri)));
  }

  // ---------------------------------------------------------------------------
  // Inherited names
  // ---------------------------------------------------------------------------

  /** No object anywhere in the value has a key named like an Object.prototype member. */
  predicate NoInheritedKeys(v: Json)
    decreases v
  {
    match v
    case JArray(es) => forall i :: 0 <= i < |es| ==> NoInheritedKeys(es[i])
    case JObject(ms) => forall i :: 0 <= i < |ms| ==> ms[i].0 !in InheritedNames && NoInheritedKeys(ms[i].1)
    case _ => true
  }

  /**
   * As written, a key such as `toString` finds Object.prototype.toString in
   * the `properties` object, so its entry is written onto that function and
   * never appears in the schema.
   */
  lemma InheritedKeyDropped()
    ensures GenerateSchemaAsWritten(JObject([("toString", JNumber(1.0))])).properties == Some([])
    ensures GenerateSchema(JObject([("toString", JNumber(1.0))])).properties
      == Some([Property("toString", Fresh.(required := Some(false), typeName := Some("number")))])
  {
    var v := JObject([("toString", JNumber(1.0))]);
    var typed := Fresh.(required := Some(true), schemaUri := Some(DraftUri), typeName := Some("object"));
    assert !Falsy(v);
    assert PassMembers(PrototypeChain, v, 0, typed) == typed;
    assert PassMembers(OwnKeysOnly, v, 0, typed) == typed;
    assert FindProperty([], "toString").None?;
    assert GenerateSchemaAsWritten(v) == RegisterProperty(PrototypeChain, v, 0, typed);
    assert GenerateSchema(v) == RegisterProperty(OwnKeysOnly, v, 0, typed);
    assert Pass(OwnKeysOnly, JNumber(1.0), Fresh.(required := Some(false)))
      == Fresh.(required := Some(false), typeName := Some("number"));
    var entry := Property("toString", Fresh.(required := Some(false), typeName := Some("number")));
    assert [] + [entry] == [entry];
  }

  /** Without such keys the generator as written and as meant agree. */
  lemma {:induction false} AsWrittenAgrees(v: Json, p: Schema)
    requires NoInheritedKeys(v)
    ensures Pass(PrototypeChain, v, p) == Pass(OwnKeysOnly, v, p)
    decreases v, 2
  {
    var typed := p.(typeName := Some(DetectType(v)));
    if !Falsy(v) {
      match v
      case JArray(es) =>
        if es != [] {
          AsWrittenAgrees(es[0], Fresh);
        }
      case JObject(ms) =>
        MembersAgree(v, |ms|, typed);
      case _ =>
    }
  }

  lemma {:induction false} MembersAgree(v: Json, n: nat, sch: Schema)
    requires v.JObject? && n <= |v.members| && NoInheritedKeys(v)
    ensures PassMembers(PrototypeChain, v, n, sch) == PassMembers(OwnKeysOnly, v, n, sch)
    decreases v, 1, n
  {
    if n > 0 {
      MembersAgree(v, n - 1, sch);
      var before := PassMembers(OwnKeysOnly, v, n - 1, sch);
      var props := if before.properties.Some? then before.properties.value else [];
      var value := v.members[n - 1].1;
      assert NoInheritedKeys(value);
      match FindProperty(props, v.members[n - 1].0)
      case Some(j) => AsWrittenAgrees(value, props[j].schema.(required := Some(false)));
      case None => AsWrittenAgrees(value, Fresh.(required := Some(false)));
    }
  }

  /** The generator as written agrees with the one meant on every value without inherited names. */
  lemma GenerateAsWrittenAgrees(v: Json)
    requires NoInheritedKeys(v)
    ensures GenerateSchemaAsWritten(v) == GenerateSchema(v)
  {
    AsWrittenAgrees(v, Fresh.(required := Some(true), schemaUri := Some(DraftUri)));
  }
}
