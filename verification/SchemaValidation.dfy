/** The accumulating schema validator and the declarative conformance relation it decides. */
module SchemaValidation {
  import opened Wrappers
  import opened Strings
  import opened JsonText

  const MAX_NODES := 10_000
  const MAX_ISSUES := 24

  datatype Kind = ObjectKind | ArrayKind | StringKind | NumberKind | IntegerKind | BooleanKind | NullKind

  datatype Schema = Schema(
    kind: Kind,
    enumeration: Option<seq<Json>>,
    minLength: Option<int>, maxLength: Option<int>,
    minimum: Option<real>, maximum: Option<real>,
    minItems: Option<int>, maxItems: Option<int>,
    items: Option<Schema>,
    properties: seq<Entry<Schema>>,
    required: seq<Str>)

  datatype Step = Index(i: nat) | Property(key: Str)

  datatype IssueCode =
    | TooManyNodes | WrongType | NotInEnum | TooShort | TooLong | TooSmall | TooLarge
    | TooFewItems | TooManyItems | UnknownProperty | MissingProperty

  datatype Issue = Issue(path: seq<Step>, code: IssueCode)

  // ------------------------------------------------------- reading objects

  predicate Has<T>(es: seq<Entry<T>>, key: Str)
  {
    exists i :: 0 <= i < |es| && es[i].key == key
  }

  function Get<T>(es: seq<Entry<T>>, key: Str): (r: T)
    requires Has(es, key)
    ensures exists i :: 0 <= i < |es| && es[i] == Entry(key, r)
  {
    if es[0].key == key then
      assert es[0] == Entry(key, es[0].value);
      es[0].value
    else
      assert Has(es[1..], key) by {
        var i :| 0 <= i < |es| && es[i].key == key;
        assert es[1..][i - 1].key == key;
      }
      var r := Get(es[1..], key);
      assert exists i :: 0 <= i < |es| && es[i] == Entry(key, r) by {
        var j :| 0 <= j < |es[1..]| && es[1..][j] == Entry(key, r);
        assert es[j + 1] == Entry(key, r);
      }
      r
  }

  // ------------------------------------------------------- what conformance means

  predicate KindMatches(kind: Kind, v: Json)
  {
    match kind
    case NullKind => v.Null?
    case ArrayKind => v.Array?
    case ObjectKind => v.Object?
    case IntegerKind => v.Number? && v.n.Floor as real == v.n
    case NumberKind => v.Number?
    case BooleanKind => v.Bool?
    case StringKind => v.String?
  }

  predicate AtLeast(value: int, bound: Option<int>) { bound.Some? ==> bound.value <= value }

  predicate AtMost(value: int, bound: Option<int>) { bound.Some? ==> value <= bound.value }

  /** Scalars are compared by value; the source compares arrays and objects by identity, so they never match. */
  predicate InEnum(v: Json, values: seq<Json>)
  {
    !v.Array? && !v.Object? && v in values
  }

  /** The constraints that concern only the value itself. */
  predicate LocallyConforms(schema: Schema, v: Json)
  {
    && KindMatches(schema.kind, v)
    && (schema.enumeration.Some? ==> InEnum(v, schema.enumeration.value))
    && (v.String? ==> AtLeast(|v.s|, schema.minLength) && AtMost(|v.s|, schema.maxLength))
    && (v.Number? ==>
          && (schema.minimum.Some? ==> schema.minimum.value <= v.n)
          && (schema.maximum.Some? ==> v.n <= schema.maximum.value))
    && (v.Array? ==> AtLeast(|v.items|, schema.minItems) && AtMost(|v.items|, schema.maxItems))
    && (v.Object? ==>
          && (forall m :: m in v.members ==> Has(schema.properties, m.key))
          && (forall key :: key in schema.required ==> Has(v.members, key)))
  }

  /** A value conforms to a closed schema. */
  predicate Conforms(schema: Schema, v: Json)
    decreases schema
  {
    && LocallyConforms(schema, v)
    && (v.Array? && schema.items.Some? ==> forall x :: x in v.items ==> Conforms(schema.items.value, x))
    && (v.Object? ==>
          forall p :: p in schema.properties && Has(v.members, p.key) ==> Conforms(p.value, Get(v.members, p.key)))
  }

  /** Values a complete traversal looks at. */
  function NodeCount(schema: Schema, v: Json): (n: nat)
    ensures n >= 1
    decreases schema, 1
  {
    match v
    case Array(items) =>
      1 + if schema.items.None? then 0 else ItemsCount(schema.items.value, items)
    case Object(members) =>
      1 + PropertiesCount(schema, SortByKey(schema.properties), members)
    case _ => 1
  }

  function ItemsCount(schema: Schema, items: seq<Json>): nat
    decreases schema, 2, |items|
  {
    if items == [] then 0
    else ItemsCount(schema, items[..|items| - 1]) + NodeCount(schema, items[|items| - 1])
  }

  function PropertiesCount(schema: Schema, properties: seq<Entry<Schema>>, members: seq<Entry<Json>>): nat
    requires forall p :: p in properties ==> p in schema.properties
    decreases schema, 0, |properties|
  {
    if properties == [] then 0
    else
      var last := properties[|properties| - 1];
      assert last in properties;
      PropertiesCount(schema, properties[..|properties| - 1], members)
      + if Has(members, last.key) then NodeCount(last.value, Get(members, last.key)) else 0
  }

  // ------------------------------------------------------- the validator

  /** The `issues` array and the `state.nodes` counter that the recursion shares. */
  class Walk {
    var issues: seq<Issue>
    var nodes: nat

    constructor ()
      ensures issues == [] && nodes == 0
    {
      issues, nodes := [], 0;
    }

    method Push(path: seq<Step>, code: IssueCode)
      modifies this`issues
      ensures issues == old(issues) + [Issue(path, code)]
    {
      issues := issues + [Issue(path, code)];
    }
  }

  /** Pushes the issues of the value itself; the kind is known to match. */
  method ValidateLocally(schema: Schema, value: Json, path: seq<Step>, w: Walk)
    requires KindMatches(schema.kind, value)
    modifies w`issues
    ensures old(w.issues) <= w.issues
    ensures w.issues == [] <==> old(w.issues) == [] && LocallyConforms(schema, value)
  {
    if schema.enumeration.Some? && !InEnum(value, schema.enumeration.value) { w.Push(path, NotInEnum); }
    if value.String? {
      if !AtLeast(|value.s|, schema.minLength) { w.Push(path, TooShort); }
      if !AtMost(|value.s|, schema.maxLength) { w.Push(path, TooLong); }
    }
    if value.Number? {
      if schema.minimum.Some? && value.n < schema.minimum.value { w.Push(path, TooSmall); }
      if schema.maximum.Some? && schema.maximum.value < value.n { w.Push(path, TooLarge); }
    }
    if value.Array? {
      if !AtLeast(|value.items|, schema.minItems) { w.Push(path, TooFewItems); }
      if !AtMost(|value.items|, schema.maxItems) { w.Push(path, TooManyItems); }
    }
    if value.Object? {
      ValidateMemberNames(schema, value.members, path, w);
    }
  }

  method ValidateMemberNames(schema: Schema, members: seq<Entry<Json>>, path: seq<Step>, w: Walk)
    modifies w`issues
    ensures old(w.issues) <= w.issues
    ensures w.issues == [] <==>
      old(w.issues) == []
      && (forall m :: m in members ==> Has(schema.properties, m.key))
      && (forall key :: key in schema.required ==> Has(members, key))
  {
    var sorted := SortByKey(members);
    for i := 0 to |sorted|
      invariant old(w.issues) <= w.issues
      invariant w.issues == [] <==> old(w.issues) == [] && forall k :: 0 <= k < i ==> Has(schema.properties, sorted[k].key)
    {
      if !Has(schema.properties, sorted[i].key) { w.Push(path + [Property(sorted[i].key)], UnknownProperty); }
    }
    assert (forall k :: 0 <= k < |sorted| ==> Has(schema.properties, sorted[k].key))
      <==> (forall m :: m in members ==> Has(schema.properties, m.key)) by {
      assert forall m :: m in members <==> m in sorted;
      assert forall k :: 0 <= k < |sorted| ==> sorted[k] in members;
    }
    label names:
    for i := 0 to |schema.required|
      invariant old@names(w.issues) <= w.issues
      invariant w.issues == [] <==> old@names(w.issues) == [] && forall k :: 0 <= k < i ==> Has(members, schema.required[k])
    {
      if !Has(members, schema.required[i]) { w.Push(path + [Property(schema.required[i])], MissingProperty); }
    }
  }

  /** `validateJsonValue`: no issue is left exactly when the value conforms and the node budget suffices. */
  method ValidateJsonValue(schema: Schema, value: Json, path: seq<Step>, w: Walk)
    modifies w
    ensures old(w.issues) <= w.issues
    ensures w.issues == [] <==>
      old(w.issues) == [] && Conforms(schema, value) && old(w.nodes) + NodeCount(schema, value) <= MAX_NODES
    ensures w.issues == [] ==> w.nodes == old(w.nodes) + NodeCount(schema, value)
    decreases schema, 1
  {
    if |w.issues| >= MAX_ISSUES { return; }
    w.nodes := w.nodes + 1;
    if w.nodes > MAX_NODES { w.Push(path, TooManyNodes); return; }
    if !KindMatches(schema.kind, value) { w.Push(path, WrongType); return; }
    ValidateLocally(schema, value, path, w);
    match value {
      case Array(items) =>
        if schema.items.Some? { ValidateItems(schema.items.value, items, path, w); }
      case Object(members) =>
        ValidateProperties(schema, members, path, w);
      case _ =>
    }
  }

  method ValidateItems(schema: Schema, items: seq<Json>, path: seq<Step>, w: Walk)
    modifies w
    requires w.issues == [] ==> w.nodes <= MAX_NODES
    ensures old(w.issues) <= w.issues
    ensures w.issues == [] <==>
      old(w.issues) == [] && (forall x :: x in items ==> Conforms(schema, x))
      && old(w.nodes) + ItemsCount(schema, items) <= MAX_NODES
    ensures w.issues == [] ==> w.nodes == old(w.nodes) + ItemsCount(schema, items)
    decreases schema, 2
  {
    for i := 0 to |items|
      invariant old(w.issues) <= w.issues
      invariant w.issues == [] <==>
        old(w.issues) == [] && (forall k :: 0 <= k < i ==> Conforms(schema, items[k]))
        && old(w.nodes) + ItemsCount(schema, items[..i]) <= MAX_NODES
      invariant w.issues == [] ==> w.nodes == old(w.nodes) + ItemsCount(schema, items[..i])
    {
      ValidateJsonValue(schema, items[i], path + [Index(i)], w);
      assert items[..i + 1][..i] == items[..i];
    }
    assert items[..|items|] == items;
  }

  lemma PropertiesStep(schema: Schema, sorted: seq<Entry<Schema>>, i: nat, members: seq<Entry<Json>>)
    requires i < |sorted| && forall p :: p in sorted ==> p in schema.properties
    ensures PropertiesCount(schema, sorted[..i + 1], members) == PropertiesCount(schema, sorted[..i], members)
      + if Has(members, sorted[i].key) then NodeCount(sorted[i].value, Get(members, sorted[i].key)) else 0
  {
    assert sorted[..i + 1][..i] == sorted[..i];
  }

  method ValidateProperties(schema: Schema, members: seq<Entry<Json>>, path: seq<Step>, w: Walk)
    modifies w
    requires w.issues == [] ==> w.nodes <= MAX_NODES
    ensures old(w.issues) <= w.issues
    ensures w.issues == [] <==>
      old(w.issues) == []
      && (forall p :: p in schema.properties && Has(members, p.key) ==> Conforms(p.value, Get(members, p.key)))
      && old(w.nodes) + PropertiesCount(schema, SortByKey(schema.properties), members) <= MAX_NODES
    ensures w.issues == [] ==>
      w.nodes == old(w.nodes) + PropertiesCount(schema, SortByKey(schema.properties), members)
    decreases schema, 0
  {
    var sorted := SortByKey(schema.properties);
    for i := 0 to |sorted|
      invariant old(w.issues) <= w.issues
      invariant w.issues == [] <==>
        old(w.issues) == []
        && (forall k :: 0 <= k < i && Has(members, sorted[k].key) ==> Conforms(sorted[k].value, Get(members, sorted[k].key)))
        && old(w.nodes) + PropertiesCount(schema, sorted[..i], members) <= MAX_NODES
      invariant w.issues == [] ==> w.nodes == old(w.nodes) + PropertiesCount(schema, sorted[..i], members)
    {
      assert sorted[i] in schema.properties;
      PropertiesStep(schema, sorted, i, members);
      if Has(members, sorted[i].key) {
        ValidateJsonValue(sorted[i].value, Get(members, sorted[i].key), path + [Property(sorted[i].key)], w);
      }
    }
    assert sorted[..|sorted|] == sorted;
  }

  /** A fresh run, as the guard and the result enforcer start it. */
  method Accepts(schema: Schema, value: Json) returns (ok: bool)
    ensures ok <==> Conforms(schema, value) && NodeCount(schema, value) <= MAX_NODES
  {
    var w := new Walk();
    ValidateJsonValue(schema, value, [], w);
    ok := w.issues == [];
  }
}
