/** What Compile accepts (internal/schema/schema.go), and the validator against the keywords of
    sections 6.1 to 6.5 of JSON Schema Validation draft-07, written as one recursive definition. */
module SchemaLaws {
  import opened Prelude
  import opened Json
  import opened Decimal
  import opened Schema

  // ------------------------------------------------------------------- compiling

  predicate GoodType(v: Json) {
    || (v.String? && KnownType(v.s))
    || (v.Array? && forall x :: x in v.items ==> x.String? && KnownType(x.s))
  }

  /** The node itself is malformed: a bad "type", or a property that is no schema. */
  ghost predicate BadNode(node: Node) {
    || (Get(node, "type").Some? && !GoodType(Get(node, "type").value))
    || (Props(node).Some? && exists name :: name in Props(node).value && !Props(node).value[name].Object?)
  }

  ghost predicate BadAt(node: Node, path: seq<Step>)
    decreases |path|
  {
    if path == [] then BadNode(node)
    else SubNode(node, path[0]).Some? && BadAt(SubNode(node, path[0]).value, path[1..])
  }

  ghost predicate WellFormed(node: Node) {
    forall path :: !BadAt(node, path)
  }

  lemma WellFormedSub(node: Node, step: Step)
    requires WellFormed(node) && SubNode(node, step).Some?
    ensures WellFormed(SubNode(node, step).value)
  {
    forall path ensures !BadAt(SubNode(node, step).value, path) {
      assert ([step] + path)[1..] == path;
      assert !BadAt(node, [step] + path);
    }
  }

  lemma WellFormedStep(node: Node)
    requires !BadNode(node)
    requires forall step :: SubNode(node, step).Some? ==> WellFormed(SubNode(node, step).value)
    ensures WellFormed(node)
  {
    forall path ensures !BadAt(node, path) {
      if path != [] && SubNode(node, path[0]).Some? { assert WellFormed(SubNode(node, path[0]).value); }
    }
  }

  method CheckTypeKeyword(node: Node) returns (ok: bool)
    ensures ok <==> Get(node, "type").Some? ==> GoodType(Get(node, "type").value)
  {
    var t := Get(node, "type");
    if t.None? { return true; }
    match t.value
    case String(name) => return KnownType(name);
    case Array(items) =>
      for i := 0 to |items|
        invariant forall j :: 0 <= j < i ==> items[j].String? && KnownType(items[j].s)
      {
        if !items[i].String? || !KnownType(items[i].s) {
          assert items[i] in items;
          return false;
        }
      }
      return true;
    case _ => return false;
  }

  /** A schema is accepted exactly when no node reachable through properties and items is malformed;
      a refusal names such a node. */
  method CheckNode(node: Node, path: seq<Step>) returns (bad: Option<seq<Step>>)
    ensures bad.None? <==> WellFormed(node)
    ensures bad.Some? ==> path <= bad.value && BadAt(node, bad.value[|path|..])
    decreases Object(node), 1
  {
    assert path[|path|..] == [];
    var ok := CheckTypeKeyword(node);
    if !ok {
      assert BadAt(node, []);
      return Some(path);
    }
    bad := CheckProps(node, path);
    if bad.Some? {
      assert BadAt(node, bad.value[|path|..]);
      return;
    }
    var items := ItemsNode(node);
    if items.Some? {
      assert node["items"] == Object(items.value);
      bad := CheckNode(items.value, path + [Index(0)]);
      if bad.Some? {
        BadBelow(node, path, Index(0), bad.value);
        assert BadAt(node, bad.value[|path|..]);
        return;
      }
    }
    forall step | SubNode(node, step).Some? ensures WellFormed(SubNode(node, step).value) {
      assert step.Key? || SubNode(node, step) == items;
    }
    WellFormedStep(node);
  }

  lemma BadBelow(node: Node, path: seq<Step>, step: Step, bad: seq<Step>)
    requires SubNode(node, step).Some? && path + [step] <= bad
    requires BadAt(SubNode(node, step).value, bad[|path| + 1..])
    ensures path <= bad && BadAt(node, bad[|path|..])
  {
    assert bad[|path|..] == [step] + bad[|path| + 1..];
    assert bad[|path|..][1..] == bad[|path| + 1..];
  }

  method CheckProps(node: Node, path: seq<Step>) returns (bad: Option<seq<Step>>)
    requires Get(node, "type").Some? ==> GoodType(Get(node, "type").value)
    ensures bad.None? ==> !BadNode(node) && forall name :: SubNode(node, Key(name)).Some? ==> WellFormed(SubNode(node, Key(name)).value)
    ensures bad.Some? ==> path <= bad.value && BadAt(node, bad.value[|path|..])
    decreases Object(node), 0
  {
    assert path[|path|..] == [];
    var props := Props(node);
    if props.None? { return None; }
    assert node["properties"] == Object(props.value);
    var rest := props.value.Keys;
    while rest != {}
      invariant rest <= props.value.Keys
      invariant forall name :: name in props.value && name !in rest ==> props.value[name].Object? && WellFormed(props.value[name].fields)
      decreases |rest|
    {
      var name :| name in rest;
      if !props.value[name].Object? { return Some(path); }
      bad := CheckNode(props.value[name].fields, path + [Key(name)]);
      if bad.Some? {
        BadBelow(node, path, Key(name), bad.value);
        return;
      }
      rest := rest - {name};
    }
    return None;
  }

  // ------------------------------------------------------------- the reference verdict

  /** Section 6.1.1: the document is of the named type. An integer is a whole number, here of int64 range. */
  ghost predicate OfType(doc: Json, name: string) {
    match doc
    case Null => name == "null"
    case Bool(_) => name == "boolean"
    case Number(n) =>
      name == "number" || (name == "integer" && n - n.Floor as real == 0.0 && MIN_INT64 <= n.Floor <= MAX_INT64)
    case String(_) => name == "string"
    case Array(_) => name == "array"
    case Object(_) => name == "object"
  }

  /** Sections 6.1.1 and 6.1.2: one of the listed types, one of the listed values. */
  ghost predicate MeetsAny(codec: Codec, node: Node, doc: Json) {
    && ("type" in node && node["type"].String? ==> OfType(doc, node["type"].s))
    && ("type" in node && node["type"].Array? && node["type"].items != [] ==>
          exists name :: String(name) in node["type"].items && OfType(doc, name))
    && ("enum" in node && node["enum"].Array? ==> exists x <- node["enum"].items :: codec.marshal(x) == codec.marshal(doc))
  }

  ghost predicate AtLeast(node: Node, key: string, n: real) {
    key in node && node[key].Number? ==> node[key].n <= n
  }

  ghost predicate AtMost(node: Node, key: string, n: real) {
    key in node && node[key].Number? ==> n <= node[key].n
  }

  /** Sections 6.2 to 6.4: the bounds on numbers, on the length of strings and on the size of arrays. */
  ghost predicate MeetsBounds(node: Node, doc: Json) {
    match doc
    case Number(n) => AtLeast(node, "minimum", n) && AtMost(node, "maximum", n)
    case String(s) => AtLeast(node, "minLength", |s| as real) && AtMost(node, "maxLength", |s| as real)
    case Array(items) => AtLeast(node, "minItems", |items| as real) && AtMost(node, "maxItems", |items| as real)
    case _ => true
  }

  /** Section 6.5.3, and 6.5.6 for the value false: required properties are there, unlisted ones are not. */
  ghost predicate MeetsKeys(node: Node, doc: Json) {
    doc.Object? ==>
      && ("required" in node && node["required"].Array? ==>
            forall name :: String(name) in node["required"].items ==> name in doc.fields)
      && ("additionalProperties" in node && node["additionalProperties"] == Bool(false) ==>
            forall name :: name in doc.fields ==>
              "properties" in node && node["properties"].Object? && name in node["properties"].fields)
  }

  /** Sections 6.1 to 6.5 of JSON Schema Validation draft-07 for the supported keywords: the document
      meets every keyword of the node, and every property and item meets its own subschema. */
  ghost predicate Meets(codec: Codec, node: Node, doc: Json)
    decreases doc
  {
    && MeetsAny(codec, node, doc) && MeetsBounds(node, doc) && MeetsKeys(node, doc)
    && (doc.Array? && "items" in node && node["items"].Object? ==>
          forall i :: 0 <= i < |doc.items| ==> Meets(codec, node["items"].fields, doc.items[i]))
    && (doc.Object? && "properties" in node && node["properties"].Object? ==>
          forall name :: name in node["properties"].fields && name in doc.fields ==>
            node["properties"].fields[name].Object? && Meets(codec, node["properties"].fields[name].fields, doc.fields[name]))
  }

  /** The type names Compile knows are exactly those that some document is of. */
  lemma KnownTypeIff(name: string)
    ensures KnownType(name) <==> exists doc :: OfType(doc, name)
  {
    assert OfType(Null, "null") && OfType(Bool(true), "boolean") && OfType(String(""), "string");
    assert OfType(Array([]), "array") && OfType(Object(map[]), "object");
    assert OfType(Number(0.0), "number") && OfType(Number(0.0), "integer");
  }

  lemma TypeMatches(doc: Json, name: string)
    ensures Matches(name, doc) <==> OfType(doc, name)
  {
  }

  lemma AnyMeans(codec: Codec, node: Node, doc: Json)
    requires !BadNode(node)
    ensures MeetsAny(codec, node, doc) <==> !Violates(codec, node, doc, Type) && !Violates(codec, node, doc, Enum)
  {
    forall name ensures Matches(name, doc) <==> OfType(doc, name) { TypeMatches(doc, name); }
    if "type" in node && node["type"].String? { assert AllowsType(node, node["type"].s); }
    if "type" in node && node["type"].Array? && node["type"].items != [] {
      var first := node["type"].items[0];
      assert first in node["type"].items && AllowsType(node, first.s);
      forall name ensures AllowsType(node, name) <==> String(name) in node["type"].items {}
    }
  }

  lemma BoundsMean(codec: Codec, node: Node, doc: Json)
    ensures MeetsBounds(node, doc) <==>
            && !Violates(codec, node, doc, Minimum) && !Violates(codec, node, doc, Maximum)
            && !Violates(codec, node, doc, MinLength) && !Violates(codec, node, doc, MaxLength)
            && !Violates(codec, node, doc, MinItems) && !Violates(codec, node, doc, MaxItems)
  {
  }

  lemma KeysMean(codec: Codec, node: Node, doc: Json)
    ensures MeetsKeys(node, doc) <==> forall name :: !Violates(codec, node, doc, Required(name)) && !Violates(codec, node, doc, Unexpected(name))
  {
    if !MeetsKeys(node, doc) {
      if "required" in node && node["required"].Array? && exists name :: String(name) in node["required"].items && name !in doc.fields {
        var name :| String(name) in node["required"].items && name !in doc.fields;
        assert Violates(codec, node, doc, Required(name));
      } else {
        var name :| name in doc.fields && !("properties" in node && node["properties"].Object? && name in node["properties"].fields);
        assert Violates(codec, node, doc, Unexpected(name));
      }
    }
  }

  /** The keywords of the node itself, read either way. */
  lemma OwnKeywords(codec: Codec, node: Node, doc: Json)
    requires !BadNode(node)
    ensures MeetsAny(codec, node, doc) && MeetsBounds(node, doc) && MeetsKeys(node, doc) <==> forall kw :: !Violates(codec, node, doc, kw)
  {
    AnyMeans(codec, node, doc);
    BoundsMean(codec, node, doc);
    KeysMean(codec, node, doc);
  }

  /** For every schema Compile accepts, in any iteration order: the validator accepts exactly the
      documents that meet it, and no property subschema is passed over. */
  lemma {:induction false} VerdictIff(codec: Codec, node: Node, doc: Json)
    requires WellFormed(node)
    ensures Conforms(codec, node, doc) <==> Meets(codec, node, doc)
    decreases doc
  {
    assert !BadAt(node, []);
    OwnKeywords(codec, node, doc);
    forall step | SubNode(node, step).Some? && SubDoc(doc, step).Some?
      ensures Conforms(codec, SubNode(node, step).value, SubDoc(doc, step).value) <==> Meets(codec, SubNode(node, step).value, SubDoc(doc, step).value)
    {
      WellFormedSub(node, step);
      assert SubDoc(doc, step).value < doc by { Smaller(doc, step); }
      VerdictIff(codec, SubNode(node, step).value, SubDoc(doc, step).value);
    }
    if Conforms(codec, node, doc) { ConformsMeets(codec, node, doc); }
    if Meets(codec, node, doc) { MeetsConforms(codec, node, doc); }
  }

  lemma Smaller(doc: Json, step: Step)
    requires SubDoc(doc, step).Some?
    ensures SubDoc(doc, step).value < doc
  {
    match step
    case Key(name) => assert doc.fields[name] < doc;
    case Index(i) => assert doc.items[i] < doc;
  }

  ghost predicate SubIff(codec: Codec, node: Node, doc: Json, step: Step) {
    SubNode(node, step).Some? && SubDoc(doc, step).Some? ==>
      (Conforms(codec, SubNode(node, step).value, SubDoc(doc, step).value) <==> Meets(codec, SubNode(node, step).value, SubDoc(doc, step).value))
  }

  lemma ConformsMeets(codec: Codec, node: Node, doc: Json)
    requires !BadNode(node) && Conforms(codec, node, doc) && forall step :: SubIff(codec, node, doc, step)
    ensures Meets(codec, node, doc)
  {
    forall kw ensures !Violates(codec, node, doc, kw) { assert !FailsAt(codec, node, doc, [], kw); }
    OwnKeywords(codec, node, doc);
    forall step ensures PartConforms(codec, node, doc, step) { ConformsPart(codec, node, doc, step); }
    if doc.Array? && ItemsNode(node).Some? {
      forall i | 0 <= i < |doc.items| ensures Meets(codec, ItemsNode(node).value, doc.items[i]) {
        assert SubIff(codec, node, doc, Index(i)) && PartConforms(codec, node, doc, Index(i));
      }
    }
    if doc.Object? && Props(node).Some? {
      forall name | name in Props(node).value && name in doc.fields
        ensures Props(node).value[name].Object? && Meets(codec, Props(node).value[name].fields, doc.fields[name])
      {
        assert SubIff(codec, node, doc, Key(name)) && PartConforms(codec, node, doc, Key(name));
      }
    }
  }

  lemma ConformsPart(codec: Codec, node: Node, doc: Json, step: Step)
    requires Conforms(codec, node, doc)
    ensures PartConforms(codec, node, doc, step)
  {
    if SubNode(node, step).Some? && SubDoc(doc, step).Some? {
      forall path, kw ensures !FailsAt(codec, SubNode(node, step).value, SubDoc(doc, step).value, path, kw) {
        if FailsAt(codec, SubNode(node, step).value, SubDoc(doc, step).value, path, kw) { FailsBelow(codec, node, doc, step, path, kw); }
      }
    }
  }

  lemma MeetsConforms(codec: Codec, node: Node, doc: Json)
    requires !BadNode(node) && Meets(codec, node, doc) && forall step :: SubIff(codec, node, doc, step)
    ensures Conforms(codec, node, doc)
  {
    OwnKeywords(codec, node, doc);
    forall step ensures PartConforms(codec, node, doc, step) {
      assert SubIff(codec, node, doc, step);
    }
    ConformsStep(codec, node, doc);
  }
}
