/**
 * The schema resolver of generate.ts: it turns one raw OpenAPI 3 schema node into a
 * PropSpec and, while it descends, appends cross-references to the schema's Meta.
 *
 * The resolution rules are first stated as pure functions that return the result
 * together with the references the call appends (ResolveNode, PropertiesUpTo,
 * AllOfPropertiesUpTo). The methods below (Resolve, GetProperties, ...) mutate a
 * Meta object as the source does and are proved to append exactly what the
 * functions describe.
 */
module Resolver {
  import opened Wrappers
  import opened Types
  import Text

  /** The subset of an OpenAPI 3 schema node the resolver reads. A JavaScript property that
      is absent is `None` (or the dedicated "No..." constructor). */
  datatype Node = Node(
    allOf: Composition,
    typ: Option<string>,
    enumValues: Option<seq<string>>,
    format: Option<string>,
    refPath: Option<string>,
    items: Option<Node>,
    additionalProperties: AdditionalProperties,
    properties: PropertyMap,
    required: Option<seq<string>>,
    nullable: Option<bool>,
    description: Option<string>,
    extraTags: Option<seq<(string, string)>>,
    permissions: Option<seq<string>>)

  /** `allOf`: absent, or the list of composed nodes. */
  datatype Composition = NoAllOf | AllOf(members: seq<Node>)

  /** `additionalProperties`: absent, a boolean, or the schema of the map's values. */
  datatype AdditionalProperties = NoAdditionalProperties | Flag(allowed: bool) | ValueSchema(schema: Node)

  /** `properties`: absent, or its entries in key order. */
  datatype PropertyMap = NoProperties | Properties(entries: seq<Entry>)

  datatype Entry = Entry(key: string, schema: Node)

  /** The unsupported-node condition (the source prints a diagnostic and exits with code 1),
      and an integer format that is not one of the plain kinds. */
  datatype ResolveError = Unsupported(schemaName: string) | UnknownIntegerFormat(schemaName: string, format: string)

  /** A resolution outcome together with the references it appends to `tsRefs` and the
      import names it adds to `goRefs`, in order. */
  datatype Resolved<T> = Resolved(value: Result<T, ResolveError>, tsRefs: seq<TSRef>, goRefs: seq<string>)

  /** The text after the last '/' of a reference, e.g. "Pet" for "#/components/schemas/Pet". */
  function RefName(ref: string): (name: string)
    ensures |name| <= |ref| && name == ref[|ref| - |name|..]
    ensures '/' !in name
    ensures |name| < |ref| ==> ref[|ref| - |name| - 1] == '/'
    ensures '/' !in ref ==> name == ref
  {
    if ref == [] || ref[|ref| - 1] == '/' then ""
    else RefName(ref[..|ref| - 1]) + [ref[|ref| - 1]]
  }

  /** `$ref` is present and truthy (an empty string is falsy). */
  predicate HasRef(n: Node)
  {
    n.refPath.Some? && n.refPath.value != ""
  }

  /** The entries of `n.properties || {}`. */
  function Entries(n: Node): seq<Entry>
  {
    if n.properties.Properties? then n.properties.entries else []
  }

  /** `!!schema.required?.includes(key)`. */
  predicate IsRequired(n: Node, key: string)
  {
    n.required.Some? && key in n.required.value
  }

  /** The extra tags of a schema or operation node: the `x-extra-tags` entries in order,
      then one `x-permissions` entry holding the permission list when that field is present. */
  function ExtraTagsOf(xExtraTags: Option<seq<(string, string)>>, xPermissions: Option<seq<string>>): (tags: seq<ExtraTag>)
    ensures var n := if xExtraTags.Some? then |xExtraTags.value| else 0;
      && |tags| == n + (if xPermissions.Some? then 1 else 0)
      && (forall i :: 0 <= i < n ==> tags[i] == ExtraTag(xExtraTags.value[i].0, Text(xExtraTags.value[i].1)))
      && (xPermissions.Some? ==> tags[n] == ExtraTag("x-permissions", Names(xPermissions.value)))
  {
    var fromMap := if xExtraTags.Some? then TextTags(xExtraTags.value) else [];
    fromMap + if xPermissions.Some? then [ExtraTag("x-permissions", Names(xPermissions.value))] else []
  }

  function TextTags(entries: seq<(string, string)>): (tags: seq<ExtraTag>)
    ensures |tags| == |entries|
    ensures forall i :: 0 <= i < |entries| ==> tags[i] == ExtraTag(entries[i].0, Text(entries[i].1))
  {
    if entries == [] then [] else [ExtraTag(entries[0].0, Text(entries[0].1))] + TextTags(entries[1..])
  }

  /** `getExtraTags(desc)`. */
  function ExtraTags(n: Node): seq<ExtraTag>
  {
    ExtraTagsOf(n.extraTags, n.permissions)
  }

  /** The names of the `$ref` members of an `allOf`, in order; a member whose name is empty
      is dropped (`.filter(Boolean)`). */
  function ExtensionNames(members: seq<Node>): seq<string>
  {
    if members == [] then []
    else
      var m := members[0];
      (if HasRef(m) && RefName(m.refPath.value) != "" then [RefName(m.refPath.value)] else [])
      + ExtensionNames(members[1..])
  }

  /** The references one `allOf` appends for its extensions. */
  function ExtensionRefs(names: seq<string>, attr: Option<AttributeInfo>, nest: Option<Nesting>): seq<TSRef>
  {
    seq(|names|, i requires 0 <= i < |names| => TSRef(names[i], attr, nest, attr.None?))
  }

  function Pure(spec: PropSpec): Resolved<PropSpec>
  {
    Resolved(Success(spec), [], [])
  }

  function Fail<T>(e: ResolveError): Resolved<T>
  {
    Resolved(Failure(e), [], [])
  }

  /** `contentDesc.format || 'int64'` for an integer node. */
  function IntegerFormat(n: Node): string
  {
    if n.format.None? || n.format.value == "" then "int64" else n.format.value
  }

  /** `getPropSpec(meta, n, attr, nest)` for the schema named `owner`, with the rules tried in
      the source's order. A single-`$ref` `allOf` is caught by the first rule, so the source's
      later shortcut for it never applies and has no branch here. */
  function ResolveNode(owner: string, n: Node, attr: Option<AttributeInfo>, nest: Option<Nesting>): Resolved<PropSpec>
    decreases n, 2
  {
    if n.allOf.AllOf? then
      var props := AllOfPropertiesUpTo(owner, n, |n.allOf.members|);
      if props.value.Failure? then Resolved(Failure(props.value.error), props.tsRefs, props.goRefs)
      else
        var exts := ExtensionNames(n.allOf.members);
        Resolved(Success(Object(props.value.value, exts)), props.tsRefs + ExtensionRefs(exts, attr, nest), props.goRefs)
    else if n.typ == Some("string") then
      if n.enumValues.Some? then Pure(Enum(n.enumValues.value))
      else if n.format == Some("date-time") then
        Resolved(Success(Plain(DateTime)), [TSRef("Date", attr, nest, false)], ["time"])
      else if n.format == Some("date") then
        Resolved(Success(Plain(Date)), [TSRef("DateWithoutTime", attr, nest, false)], [])
      else Pure(Plain(Str))
    else if n.typ == Some("number") then Pure(Plain(Number))
    else if n.typ == Some("boolean") then Pure(Plain(Boolean))
    else if n.typ == Some("integer") then
      match PlainKindNamed(IntegerFormat(n))
      case Some(k) => Pure(Plain(k))
      case None => Fail(UnknownIntegerFormat(owner, IntegerFormat(n)))
    else if HasRef(n) then
      var name := RefName(n.refPath.value);
      Resolved(Success(Ref(name)), [TSRef(name, attr, nest, false)], [])
    else if n.items.Some? then
      var child := ResolveNode(owner, n.items.value, attr, Some(InArray));
      Resolved(if child.value.Success? then Success(Array(child.value.value)) else child.value, child.tsRefs, child.goRefs)
    else if n.additionalProperties == Flag(true) then
      // `getPropSpec(meta, true, ...)`: a boolean matches no rule
      Fail(Unsupported(owner))
    else if n.additionalProperties.ValueSchema? then
      var child := ResolveNode(owner, n.additionalProperties.schema, attr, Some(InMap));
      Resolved(if child.value.Success? then Success(Map(child.value.value)) else child.value, child.tsRefs, child.goRefs)
    else if n.properties.Properties? || n.typ == Some("object") then
      var props := PropertiesUpTo(owner, n, |Entries(n)|);
      Resolved(if props.value.Success? then Success(Object(props.value.value, [])) else Failure(props.value.error),
               props.tsRefs, props.goRefs)
    else Fail(Unsupported(owner))
  }

  /** The property records of the first `k` entries of `n.properties` (`getProperties`). */
  function PropertiesUpTo(owner: string, n: Node, k: nat): Resolved<seq<Prop>>
    requires k <= |Entries(n)|
    decreases n, 1, k
  {
    if k == 0 then Resolved(Success([]), [], [])
    else
      var prev := PropertiesUpTo(owner, n, k - 1);
      if prev.value.Failure? then prev
      else
        var e := Entries(n)[k - 1];
        var req := IsRequired(n, e.key);
        var child := ResolveNode(owner, e.schema, Some(AttributeInfo(e.key, req)), None);
        var value := if child.value.Success?
          then Success(prev.value.value + [Prop(e.key, req, e.schema.nullable, e.schema.description, child.value.value, ExtraTags(e.schema))])
          else Failure(child.value.error);
        Resolved(value, prev.tsRefs + child.tsRefs, prev.goRefs + child.goRefs)
  }

  /** The concatenated properties of the `type: 'object'` members among the first `k`
      members of an `allOf`; other members contribute nothing. */
  function AllOfPropertiesUpTo(owner: string, n: Node, k: nat): Resolved<seq<Prop>>
    requires n.allOf.AllOf? && k <= |n.allOf.members|
    decreases n, 1, k
  {
    if k == 0 then Resolved(Success([]), [], [])
    else
      var prev := AllOfPropertiesUpTo(owner, n, k - 1);
      if prev.value.Failure? then prev
      else
        var m := n.allOf.members[k - 1];
        if m.typ == Some("object") then
          var props := PropertiesUpTo(owner, m, |Entries(m)|);
          var value := if props.value.Success? then Success(prev.value.value + props.value.value) else Failure(props.value.error);
          Resolved(value, prev.tsRefs + props.tsRefs, prev.goRefs + props.goRefs)
        else prev
  }

  /** `getPropSpec`: resolves `n`, appending its references to `meta` as it goes. */
  method Resolve(meta: Meta, n: Node, attr: Option<AttributeInfo>, nest: Option<Nesting>) returns (r: Result<PropSpec, ResolveError>)
    modifies meta
    decreases n, 2
    ensures r == ResolveNode(meta.name, n, attr, nest).value
    ensures meta.tsRefs == old(meta.tsRefs) + ResolveNode(meta.name, n, attr, nest).tsRefs
    ensures meta.goRefs == Text.AddAll(old(meta.goRefs), ResolveNode(meta.name, n, attr, nest).goRefs)
  {
    if n.allOf.AllOf? {
      r := ResolveAllOf(meta, n, attr, nest);
      return;
    }
    if n.typ == Some("string") {
      r := ResolveString(meta, n, attr, nest);
      return;
    }
    if n.typ == Some("number") {
      return Success(Plain(Number));
    }
    if n.typ == Some("boolean") {
      return Success(Plain(Boolean));
    }
    if n.typ == Some("integer") {
      var format := IntegerFormat(n);
      match PlainKindNamed(format)
      case Some(k) => return Success(Plain(k));
      case None => return Failure(UnknownIntegerFormat(meta.name, format));
    }
    if HasRef(n) {
      var name := RefName(n.refPath.value);
      meta.PushTsRef(TSRef(name, attr, nest, false));
      return Success(Ref(name));
    }
    if n.items.Some? {
      var child := Resolve(meta, n.items.value, attr, Some(InArray));
      return if child.Success? then Success(Array(child.value)) else child;
    }
    if n.additionalProperties == Flag(true) {
      return Failure(Unsupported(meta.name));
    }
    if n.additionalProperties.ValueSchema? {
      var child := Resolve(meta, n.additionalProperties.schema, attr, Some(InMap));
      return if child.Success? then Success(Map(child.value)) else child;
    }
    if n.properties.Properties? || n.typ == Some("object") {
      var props := GetProperties(meta, n);
      return if props.Success? then Success(Object(props.value, [])) else Failure(props.error);
    }
    return Failure(Unsupported(meta.name));
  }

  /** The `allOf` rule: the properties of the object members, then one reference per
      extension, pushed in order. */
  method ResolveAllOf(meta: Meta, n: Node, attr: Option<AttributeInfo>, nest: Option<Nesting>) returns (r: Result<PropSpec, ResolveError>)
    requires n.allOf.AllOf?
    modifies meta
    decreases n, 1, |n.allOf.members| + 2
    ensures r == ResolveNode(meta.name, n, attr, nest).value
    ensures meta.tsRefs == old(meta.tsRefs) + ResolveNode(meta.name, n, attr, nest).tsRefs
    ensures meta.goRefs == Text.AddAll(old(meta.goRefs), ResolveNode(meta.name, n, attr, nest).goRefs)
  {
    var props := GetAllOfProperties(meta, n);
    if props.Failure? {
      return Failure(props.error);
    }
    var exts := ExtensionNames(n.allOf.members);
    ghost var fromProps := AllOfPropertiesUpTo(meta.name, n, |n.allOf.members|).tsRefs;
    PushExtensions(meta, exts, attr, nest);
    assert meta.tsRefs == old(meta.tsRefs) + (fromProps + ExtensionRefs(exts, attr, nest));
    return Success(Object(props.value, exts));
  }

  /** Pushes one extension reference per name, in order; an extension found at top level
      (no attribute) is marked as such. */
  method PushExtensions(meta: Meta, exts: seq<string>, attr: Option<AttributeInfo>, nest: Option<Nesting>)
    modifies meta
    ensures meta.tsRefs == old(meta.tsRefs) + ExtensionRefs(exts, attr, nest)
    ensures meta.goRefs == old(meta.goRefs)
  {
    var i := 0;
    while i < |exts|
      invariant 0 <= i <= |exts|
      invariant meta.tsRefs == old(meta.tsRefs) + ExtensionRefs(exts[..i], attr, nest)
      invariant meta.goRefs == old(meta.goRefs)
    {
      meta.PushTsRef(TSRef(exts[i], attr, nest, attr.None?));
      assert exts[..i + 1] == exts[..i] + [exts[i]];
      i := i + 1;
    }
    assert exts[..i] == exts;
  }

  /** The `type: 'string'` rule: an enumeration wins over the format; a date-time registers
      the Go `time` import and a `Date` reference, a date only a `DateWithoutTime` reference. */
  method ResolveString(meta: Meta, n: Node, attr: Option<AttributeInfo>, nest: Option<Nesting>) returns (r: Result<PropSpec, ResolveError>)
    requires n.allOf.NoAllOf? && n.typ == Some("string")
    modifies meta
    ensures r == ResolveNode(meta.name, n, attr, nest).value
    ensures meta.tsRefs == old(meta.tsRefs) + ResolveNode(meta.name, n, attr, nest).tsRefs
    ensures meta.goRefs == Text.AddAll(old(meta.goRefs), ResolveNode(meta.name, n, attr, nest).goRefs)
  {
    if n.enumValues.Some? {
      return Success(Enum(n.enumValues.value));
    }
    if n.format == Some("date-time") {
      meta.AddGoRef("time");
      meta.PushTsRef(TSRef("Date", attr, nest, false));
      assert ["time"][..0] == [];
      return Success(Plain(DateTime));
    }
    if n.format == Some("date") {
      meta.PushTsRef(TSRef("DateWithoutTime", attr, nest, false));
      return Success(Plain(Date));
    }
    return Success(Plain(Str));
  }

  /** `getProperties(meta, n)`: one property record per entry, in key order. */
  method GetProperties(meta: Meta, n: Node) returns (r: Result<seq<Prop>, ResolveError>)
    modifies meta
    decreases n, 1, |Entries(n)| + 1
    ensures r == PropertiesUpTo(meta.name, n, |Entries(n)|).value
    ensures meta.tsRefs == old(meta.tsRefs) + PropertiesUpTo(meta.name, n, |Entries(n)|).tsRefs
    ensures meta.goRefs == Text.AddAll(old(meta.goRefs), PropertiesUpTo(meta.name, n, |Entries(n)|).goRefs)
  {
    r := GetPropertiesUpTo(meta, n, |Entries(n)|);
  }

  method GetPropertiesUpTo(meta: Meta, n: Node, k: nat) returns (r: Result<seq<Prop>, ResolveError>)
    requires k <= |Entries(n)|
    modifies meta
    decreases n, 1, k
    ensures r == PropertiesUpTo(meta.name, n, k).value
    ensures meta.tsRefs == old(meta.tsRefs) + PropertiesUpTo(meta.name, n, k).tsRefs
    ensures meta.goRefs == Text.AddAll(old(meta.goRefs), PropertiesUpTo(meta.name, n, k).goRefs)
  {
    if k == 0 {
      return Success([]);
    }
    var prev := GetPropertiesUpTo(meta, n, k - 1);
    if prev.Failure? {
      return prev;
    }
    var e := Entries(n)[k - 1];
    var req := IsRequired(n, e.key);
    ghost var before := PropertiesUpTo(meta.name, n, k - 1);
    ghost var child := ResolveNode(meta.name, e.schema, Some(AttributeInfo(e.key, req)), None);
    var spec := Resolve(meta, e.schema, Some(AttributeInfo(e.key, req)), None);
    assert meta.tsRefs == old(meta.tsRefs) + (before.tsRefs + child.tsRefs);
    Text.AddAllConcat(old(meta.goRefs), before.goRefs, child.goRefs);
    if spec.Failure? {
      return Failure(spec.error);
    }
    return Success(prev.value + [Prop(e.key, req, e.schema.nullable, e.schema.description, spec.value, ExtraTags(e.schema))]);
  }

  /** The properties of the `type: 'object'` members of an `allOf`, concatenated in order. */
  method GetAllOfProperties(meta: Meta, n: Node) returns (r: Result<seq<Prop>, ResolveError>)
    requires n.allOf.AllOf?
    modifies meta
    decreases n, 1, |n.allOf.members| + 1
    ensures r == AllOfPropertiesUpTo(meta.name, n, |n.allOf.members|).value
    ensures meta.tsRefs == old(meta.tsRefs) + AllOfPropertiesUpTo(meta.name, n, |n.allOf.members|).tsRefs
    ensures meta.goRefs == Text.AddAll(old(meta.goRefs), AllOfPropertiesUpTo(meta.name, n, |n.allOf.members|).goRefs)
  {
    r := GetAllOfPropertiesUpTo(meta, n, |n.allOf.members|);
  }

  method GetAllOfPropertiesUpTo(meta: Meta, n: Node, k: nat) returns (r: Result<seq<Prop>, ResolveError>)
    requires n.allOf.AllOf? && k <= |n.allOf.members|
    modifies meta
    decreases n, 1, k
    ensures r == AllOfPropertiesUpTo(meta.name, n, k).value
    ensures meta.tsRefs == old(meta.tsRefs) + AllOfPropertiesUpTo(meta.name, n, k).tsRefs
    ensures meta.goRefs == Text.AddAll(old(meta.goRefs), AllOfPropertiesUpTo(meta.name, n, k).goRefs)
  {
    if k == 0 {
      return Success([]);
    }
    var prev := GetAllOfPropertiesUpTo(meta, n, k - 1);
    if prev.Failure? {
      return prev;
    }
    var m := n.allOf.members[k - 1];
    ghost var before := AllOfPropertiesUpTo(meta.name, n, k - 1);
    if m.typ != Some("object") {
      assert AllOfPropertiesUpTo(meta.name, n, k) == before;
      return prev;
    }
    ghost var memberProps := PropertiesUpTo(meta.name, m, |Entries(m)|);
    ghost var mid := meta.tsRefs;
    assert mid == old(meta.tsRefs) + before.tsRefs;
    var own := GetProperties(meta, m);
    assert meta.tsRefs == old(meta.tsRefs) + (before.tsRefs + memberProps.tsRefs);
    Text.AddAllConcat(old(meta.goRefs), before.goRefs, memberProps.goRefs);
    assert AllOfPropertiesUpTo(meta.name, n, k).tsRefs == before.tsRefs + memberProps.tsRefs;
    assert AllOfPropertiesUpTo(meta.name, n, k).goRefs == before.goRefs + memberProps.goRefs;
    if own.Failure? {
      return Failure(own.error);
    }
    return Success(prev.value + own.value);
  }

  /** `parseSchema(name, node)`: resolves a top-level definition with a fresh accumulator. */
  method ParseSchema(name: string, node: Node) returns (r: Result<Schema, ResolveError>)
    ensures r.Success? <==> Definition(Entry(name, node)).value.Success?
    ensures r.Failure? ==> r.error == Definition(Entry(name, node)).value.error
    ensures r.Success? ==> && ParsedFrom(r.value, Entry(name, node))
                           && fresh(r.value.meta) && r.value.meta.name == name
                           && r.value.meta.goRefs == Text.AddAll([], Definition(Entry(name, node)).goRefs)
  {
    var meta := new Meta(name);
    var spec := Resolve(meta, node, None, None);
    if spec.Failure? {
      return Failure(spec.error);
    }
    return Success(Schema(name, spec.value, meta));
  }

  /** The resolution of one top-level definition, with a fresh accumulator. */
  function Definition(d: Entry): Resolved<PropSpec>
  {
    ResolveNode(d.key, d.schema, None, None)
  }

  /** `s` is what parsing the definition `d` yields. */
  ghost predicate ParsedFrom(s: Schema, d: Entry)
    reads s.meta
  {
    && s.name == d.key
    && Definition(d).value == Success(s.spec)
    && s.meta.tsRefs == Definition(d).tsRefs
  }

  /** Parses every definition of `components.schemas`, in order; the first failure ends
      the run. Each schema gets its own accumulator. */
  method ParseSchemas(definitions: seq<Entry>) returns (r: Result<seq<Schema>, ResolveError>)
    ensures r.Success? ==> |r.value| == |definitions|
    ensures r.Success? ==> forall i :: 0 <= i < |definitions| ==> ParsedFrom(r.value[i], definitions[i]) && fresh(r.value[i].meta)
    ensures r.Success? ==> forall i, j :: 0 <= i < j < |definitions| ==> r.value[i].meta != r.value[j].meta
    ensures r.Success? <==> forall i :: 0 <= i < |definitions| ==> Definition(definitions[i]).value.Success?
  {
    var schemas: seq<Schema> := [];
    var i := 0;
    while i < |definitions|
      invariant 0 <= i <= |definitions| && |schemas| == i
      invariant forall j :: 0 <= j < i ==> ParsedFrom(schemas[j], definitions[j]) && fresh(schemas[j].meta)
      invariant forall j, k :: 0 <= j < k < i ==> schemas[j].meta != schemas[k].meta
    {
      var s := ParseSchema(definitions[i].key, definitions[i].schema);
      if s.Failure? {
        return Failure(s.error);
      }
      assert Entry(definitions[i].key, definitions[i].schema) == definitions[i];
      schemas := schemas + [s.value];
      i := i + 1;
    }
    return Success(schemas);
  }
}
