/** The JSON Schema subset validator (internal/schema/schema.go). Map iteration order is left open: a
    loop over a map takes the keys in any order. */
module Schema {
  import opened Prelude
  import opened Json
  import opened Decimal

  type Node = map<string, Json>

  // ----------------------------------------------------------------- reading a node

  function Get(node: Node, k: string): Option<Json> {
    if k in node then Some(node[k]) else None
  }

  /** toFloat */
  function Num(v: Option<Json>): Option<real> {
    if v.Some? && v.value.Number? then Some(v.value.n) else None
  }

  /** The subschemas under "properties", when that keyword holds an object. */
  function Props(node: Node): Option<Node> {
    var v := Get(node, "properties");
    if v.Some? && v.value.Object? then Some(v.value.fields) else None
  }

  function ItemsNode(node: Node): Option<Node> {
    var v := Get(node, "items");
    if v.Some? && v.value.Object? then Some(v.value.fields) else None
  }

  predicate KnownType(name: string) {
    name in {"object", "array", "string", "number", "integer", "boolean", "null"}
  }

  /** matchesType; an integer is whole and survives the conversion to int64 and back. */
  predicate Matches(name: string, doc: Json) {
    || (name == "object" && doc.Object?)
    || (name == "array" && doc.Array?)
    || (name == "string" && doc.String?)
    || (name == "number" && doc.Number?)
    || (name == "integer" && doc.Number? && doc.n == doc.n.Floor as real && MIN_INT64 <= doc.n.Floor <= MAX_INT64)
    || (name == "boolean" && doc.Bool?)
    || (name == "null" && doc.Null?)
  }

  /** The strings of a list, the rest dropped. */
  function Strings(items: seq<Json>): seq<string> {
    if items == [] then []
    else (if items[0].String? then [items[0].s] else []) + Strings(items[1..])
  }

  function TypeNames(v: Option<Json>): seq<string> {
    if v.None? then []
    else if v.value.String? then [v.value.s]
    else if v.value.Array? then Strings(v.value.items)
    else []
  }

  lemma {:induction false} StringsHolds(items: seq<Json>, name: string)
    ensures name in Strings(items) <==> String(name) in items
  {
    if items != [] {
      StringsHolds(items[1..], name);
      assert items == [items[0]] + items[1..];
    }
  }

  // ------------------------------------------------------------ what a document violates

  datatype Keyword =
    | Type | Enum | Minimum | Maximum | MinLength | MaxLength | MinItems | MaxItems
    | Required(name: string) | Unexpected(name: string)

  ghost predicate AllowsType(node: Node, name: string) {
    var v := Get(node, "type");
    v.Some? && (v.value == String(name) || (v.value.Array? && String(name) in v.value.items))
  }

  predicate Below(n: real, bound: Option<real>) { bound.Some? && n < bound.value }
  predicate Above(n: real, bound: Option<real>) { bound.Some? && n > bound.value }

  /** The document itself, leaving its parts aside, breaks one keyword of the node. */
  ghost predicate Violates(codec: Codec, node: Node, doc: Json, kw: Keyword) {
    match kw
    case Type => (exists name :: AllowsType(node, name)) && forall name :: AllowsType(node, name) ==> !Matches(name, doc)
    case Enum =>
      var v := Get(node, "enum");
      v.Some? && v.value.Array? && forall x :: x in v.value.items ==> codec.marshal(x) != codec.marshal(doc)
    case Minimum => doc.Number? && Below(doc.n, Num(Get(node, "minimum")))
    case Maximum => doc.Number? && Above(doc.n, Num(Get(node, "maximum")))
    case MinLength => doc.String? && Below(|doc.s| as real, Num(Get(node, "minLength")))
    case MaxLength => doc.String? && Above(|doc.s| as real, Num(Get(node, "maxLength")))
    case MinItems => doc.Array? && Below(|doc.items| as real, Num(Get(node, "minItems")))
    case MaxItems => doc.Array? && Above(|doc.items| as real, Num(Get(node, "maxItems")))
    case Required(name) =>
      var v := Get(node, "required");
      doc.Object? && v.Some? && v.value.Array? && String(name) in v.value.items && name !in doc.fields
    case Unexpected(name) => doc.Object? && Get(node, "additionalProperties") == Some(Bool(false)) && IsUnknown(node, doc.fields, name)
  }

  predicate IsUnknown(node: Node, fields: Node, name: string) {
    name in fields && (Props(node).None? || name !in Props(node).value)
  }

  /** One step down a document: into a property or an item. */
  datatype Step = Key(name: string) | Index(i: nat)

  function SubNode(node: Node, step: Step): Option<Node> {
    match step
    case Key(name) =>
      var ps := Props(node);
      if ps.Some? && name in ps.value && ps.value[name].Object? then Some(ps.value[name].fields) else None
    case Index(_) => ItemsNode(node)
  }

  function SubDoc(doc: Json, step: Step): Option<Json> {
    match step
    case Key(name) => if doc.Object? && name in doc.fields then Some(doc.fields[name]) else None
    case Index(i) => if doc.Array? && i < |doc.items| then Some(doc.items[i]) else None
  }

  /** Following `path` in the schema and the document together ends at a violation of `kw`. */
  ghost predicate FailsAt(codec: Codec, node: Node, doc: Json, path: seq<Step>, kw: Keyword)
    decreases |path|
  {
    if path == [] then Violates(codec, node, doc, kw)
    else
      var n, d := SubNode(node, path[0]), SubDoc(doc, path[0]);
      n.Some? && d.Some? && FailsAt(codec, n.value, d.value, path[1..], kw)
  }

  /** Nothing anywhere in the document breaks any keyword that applies to it. */
  ghost predicate Conforms(codec: Codec, node: Node, doc: Json) {
    forall path, kw :: !FailsAt(codec, node, doc, path, kw)
  }

  ghost predicate PartConforms(codec: Codec, node: Node, doc: Json, step: Step) {
    SubNode(node, step).Some? && SubDoc(doc, step).Some? ==> Conforms(codec, SubNode(node, step).value, SubDoc(doc, step).value)
  }

  lemma ConformsStep(codec: Codec, node: Node, doc: Json)
    requires forall kw :: !Violates(codec, node, doc, kw)
    requires forall step :: PartConforms(codec, node, doc, step)
    ensures Conforms(codec, node, doc)
  {
    forall path, kw ensures !FailsAt(codec, node, doc, path, kw) {
      if path != [] { assert PartConforms(codec, node, doc, path[0]); }
    }
  }

  lemma FailsBelow(codec: Codec, node: Node, doc: Json, step: Step, path: seq<Step>, kw: Keyword)
    requires SubNode(node, step).Some? && SubDoc(doc, step).Some?
    requires FailsAt(codec, SubNode(node, step).value, SubDoc(doc, step).value, path, kw)
    ensures FailsAt(codec, node, doc, [step] + path, kw)
  {
    assert ([step] + path)[1..] == path;
  }

  // -------------------------------------------------------------------- the validator

  datatype Failure = Failure(path: seq<Step>, kw: Keyword)

  method CheckType(node: Node, doc: Json) returns (bad: Option<Keyword>)
    ensures bad == None || bad == Some(Type)
    ensures forall codec :: bad.Some? <==> Violates(codec, node, doc, Type)
  {
    var allowed := TypeNames(Get(node, "type"));
    forall name ensures name in allowed <==> AllowsType(node, name) { TypeNamesHold(node, name); }
    if |allowed| == 0 { return None; }
    assert AllowsType(node, allowed[0]);
    for i := 0 to |allowed|
      invariant forall j :: 0 <= j < i ==> !Matches(allowed[j], doc)
    {
      if Matches(allowed[i], doc) {
        assert AllowsType(node, allowed[i]);
        return None;
      }
    }
    return Some(Type);
  }

  lemma TypeNamesHold(node: Node, name: string)
    ensures name in TypeNames(Get(node, "type")) <==> AllowsType(node, name)
  {
    var v := Get(node, "type");
    if v.Some? && v.value.Array? { StringsHolds(v.value.items, name); }
  }

  method CheckEnum(codec: Codec, node: Node, doc: Json) returns (bad: Option<Keyword>)
    ensures bad == None || bad == Some(Enum)
    ensures bad.Some? <==> Violates(codec, node, doc, Enum)
  {
    var v := Get(node, "enum");
    if v.None? || !v.value.Array? { return None; }
    var values := v.value.items;
    for i := 0 to |values|
      invariant forall j :: 0 <= j < i ==> codec.marshal(values[j]) != codec.marshal(doc)
    {
      if codec.marshal(values[i]) == codec.marshal(doc) { return None; }
    }
    return Some(Enum);
  }

  function CheckNumber(node: Node, doc: Json): Option<Keyword> {
    if !doc.Number? then None
    else if Below(doc.n, Num(Get(node, "minimum"))) then Some(Minimum)
    else if Above(doc.n, Num(Get(node, "maximum"))) then Some(Maximum)
    else None
  }

  function CheckString(node: Node, doc: Json): Option<Keyword> {
    if !doc.String? then None
    else if Below(|doc.s| as real, Num(Get(node, "minLength"))) then Some(MinLength)
    else if Above(|doc.s| as real, Num(Get(node, "maxLength"))) then Some(MaxLength)
    else None
  }

  function CheckLength(node: Node, doc: Json): Option<Keyword> {
    if !doc.Array? then None
    else if Below(|doc.items| as real, Num(Get(node, "minItems"))) then Some(MinItems)
    else if Above(|doc.items| as real, Num(Get(node, "maxItems"))) then Some(MaxItems)
    else None
  }

  method CheckRequired(node: Node, fields: Node) returns (bad: Option<Keyword>)
    ensures forall codec :: bad.Some? ==> Violates(codec, node, Object(fields), bad.value)
    ensures forall codec, name :: bad.None? ==> !Violates(codec, node, Object(fields), Required(name))
  {
    var v := Get(node, "required");
    if v.None? || !v.value.Array? { return None; }
    var req := v.value.items;
    for i := 0 to |req|
      invariant forall j :: 0 <= j < i && req[j].String? ==> req[j].s in fields
    {
      if req[i].String? && req[i].s !in fields { return Some(Required(req[i].s)); }
    }
    return None;
  }

  // ------------------------------------------------------------ the order of names

  /** Byte order of UTF-8 text, which is the order of code points. */
  predicate AtMost(a: string, b: string) {
    a == "" || (b != "" && (a[0] < b[0] || (a[0] == b[0] && AtMost(a[1..], b[1..]))))
  }

  lemma {:induction false} AtMostTotal(a: string, b: string)
    ensures AtMost(a, b) || AtMost(b, a)
  {
    if a != "" && b != "" { AtMostTotal(a[1..], b[1..]); }
  }

  lemma {:induction false} AtMostTrans(a: string, b: string, c: string)
    requires AtMost(a, b) && AtMost(b, c)
    ensures AtMost(a, c)
  {
    if a != "" && a[0] == b[0] == c[0] { AtMostTrans(a[1..], b[1..], c[1..]); }
  }

  /** The first property in name order that the schema does not define. */
  method FirstUnknown(node: Node, fields: Node) returns (least: Option<string>)
    ensures least.None? <==> forall name :: !IsUnknown(node, fields, name)
    ensures least.Some? ==> IsUnknown(node, fields, least.value) && forall name :: IsUnknown(node, fields, name) ==> AtMost(least.value, name)
  {
    least := None;
    var rest := fields.Keys;
    while rest != {}
      invariant rest <= fields.Keys
      invariant least.None? ==> forall name :: IsUnknown(node, fields, name) ==> name in rest
      invariant least.Some? ==> IsUnknown(node, fields, least.value)
      invariant least.Some? ==> forall name :: IsUnknown(node, fields, name) && name !in rest ==> AtMost(least.value, name)
      decreases |rest|
    {
      var name :| name in rest;
      rest := rest - {name};
      if IsUnknown(node, fields, name) {
        AtMostTotal(name, name);
        if least.None? {
          least := Some(name);
        } else {
          AtMostTotal(least.value, name);
          if AtMost(name, least.value) {
            forall other | AtMost(least.value, other) ensures AtMost(name, other) { AtMostTrans(name, least.value, other); }
            least := Some(name);
          }
        }
      }
    }
  }

  // ------------------------------------------------------------------ the recursion

  /** `bad` is a real violation below `path`, or there is none at all. */
  ghost predicate Verdict(codec: Codec, node: Node, doc: Json, path: seq<Step>, bad: Option<Failure>) {
    && (bad.None? ==> Conforms(codec, node, doc))
    && (bad.Some? ==> path <= bad.value.path && FailsAt(codec, node, doc, bad.value.path[|path|..], bad.value.kw))
  }

  /** A verdict on a part, read from above. */
  lemma VerdictBelow(codec: Codec, node: Node, doc: Json, path: seq<Step>, step: Step, bad: Option<Failure>)
    requires SubNode(node, step).Some? && SubDoc(doc, step).Some?
    requires Verdict(codec, SubNode(node, step).value, SubDoc(doc, step).value, path + [step], bad)
    ensures bad.None? ==> PartConforms(codec, node, doc, step)
    ensures bad.Some? ==> path <= bad.value.path && FailsAt(codec, node, doc, bad.value.path[|path|..], bad.value.kw)
  {
    if bad.Some? {
      var below := bad.value.path[|path| + 1..];
      FailsBelow(codec, node, doc, step, below, bad.value.kw);
      assert bad.value.path[|path|..] == [step] + below;
    }
  }

  /** The checks that do not look inside arrays and objects. */
  method CheckScalar(codec: Codec, node: Node, doc: Json) returns (kw: Option<Keyword>)
    ensures kw.Some? ==> Violates(codec, node, doc, kw.value)
    ensures kw.None? ==> !Violates(codec, node, doc, Type) && !Violates(codec, node, doc, Enum)
    ensures kw.None? ==> !Violates(codec, node, doc, Minimum) && !Violates(codec, node, doc, Maximum)
    ensures kw.None? ==> !Violates(codec, node, doc, MinLength) && !Violates(codec, node, doc, MaxLength)
  {
    kw := CheckType(node, doc);
    if kw.Some? { return; }
    kw := CheckEnum(codec, node, doc);
    if kw.Some? { return; }
    kw := CheckNumber(node, doc);
    if kw.Some? { return; }
    kw := CheckString(node, doc);
  }

  method Validate(codec: Codec, node: Node, doc: Json, path: seq<Step>) returns (bad: Option<Failure>)
    ensures Verdict(codec, node, doc, path, bad)
    ensures bad.None? <==> Conforms(codec, node, doc)
    decreases doc, 2
  {
    assert path[|path|..] == [];
    var kw := CheckScalar(codec, node, doc);
    if kw.Some? {
      assert FailsAt(codec, node, doc, [], kw.value);
      return Some(Failure(path, kw.value));
    }
    bad := CheckArray(codec, node, doc, path);
    assert bad.Some? ==> FailsAt(codec, node, doc, bad.value.path[|path|..], bad.value.kw);
    if bad.Some? { return; }
    bad := CheckObject(codec, node, doc, path);
    assert bad.Some? ==> FailsAt(codec, node, doc, bad.value.path[|path|..], bad.value.kw);
    if bad.None? {
      forall step ensures PartConforms(codec, node, doc, step) {}
      ConformsStep(codec, node, doc);
    }
  }

  method CheckArray(codec: Codec, node: Node, doc: Json, path: seq<Step>) returns (bad: Option<Failure>)
    ensures bad.None? ==> !Violates(codec, node, doc, MinItems) && !Violates(codec, node, doc, MaxItems)
    ensures bad.None? ==> forall i :: PartConforms(codec, node, doc, Index(i))
    ensures bad.Some? ==> path <= bad.value.path && FailsAt(codec, node, doc, bad.value.path[|path|..], bad.value.kw)
    decreases doc, 1
  {
    assert path[|path|..] == [];
    if !doc.Array? { return None; }
    var kw := CheckLength(node, doc);
    if kw.Some? { return Some(Failure(path, kw.value)); }
    var items := ItemsNode(node);
    if items.None? { return None; }
    for i := 0 to |doc.items|
      invariant forall j :: 0 <= j < i ==> PartConforms(codec, node, doc, Index(j))
    {
      bad := Validate(codec, items.value, doc.items[i], path + [Index(i)]);
      VerdictBelow(codec, node, doc, path, Index(i), bad);
      if bad.Some? { return; }
    }
    return None;
  }

  method CheckObject(codec: Codec, node: Node, doc: Json, path: seq<Step>) returns (bad: Option<Failure>)
    ensures bad.None? ==> forall name :: !Violates(codec, node, doc, Required(name)) && !Violates(codec, node, doc, Unexpected(name))
    ensures bad.None? ==> forall name :: PartConforms(codec, node, doc, Key(name))
    ensures bad.Some? ==> path <= bad.value.path && FailsAt(codec, node, doc, bad.value.path[|path|..], bad.value.kw)
    decreases doc, 1
  {
    assert path[|path|..] == [];
    if !doc.Object? { return None; }
    var kw := CheckRequired(node, doc.fields);
    if kw.Some? { return Some(Failure(path, kw.value)); }
    bad := CheckProperties(codec, node, doc, path);
    if bad.Some? { return; }
    if Get(node, "additionalProperties") == Some(Bool(false)) {
      var unknown := FirstUnknown(node, doc.fields);
      if unknown.Some? { return Some(Failure(path, Unexpected(unknown.value))); }
    }
    return None;
  }

  method CheckProperties(codec: Codec, node: Node, doc: Json, path: seq<Step>) returns (bad: Option<Failure>)
    requires doc.Object?
    ensures bad.None? ==> forall name :: PartConforms(codec, node, doc, Key(name))
    ensures bad.Some? ==> path <= bad.value.path && FailsAt(codec, node, doc, bad.value.path[|path|..], bad.value.kw)
    decreases doc, 0
  {
    var props := Props(node);
    if props.None? { return None; }
    var rest := props.value.Keys;
    while rest != {}
      invariant rest <= props.value.Keys
      invariant forall name :: name !in rest ==> PartConforms(codec, node, doc, Key(name))
      decreases |rest|
    {
      var name :| name in rest;
      if name in doc.fields && props.value[name].Object? {
        bad := Validate(codec, props.value[name].fields, doc.fields[name], path + [Key(name)]);
        VerdictBelow(codec, node, doc, path, Key(name), bad);
        if bad.Some? { return; }
      }
      rest := rest - {name};
    }
    return None;
  }
}
