/**
 * The intermediate representation the resolver builds and both emitters read:
 * plain kinds, property specifications, properties, cross-reference entries,
 * the per-schema reference accumulator, schemas and requests.
 */
module Types {
  import opened Wrappers
  import Text

  /** The seven plain value kinds; their wire names are 'date-time', 'date', 'string',
      'number', 'int64', 'int32' and 'boolean'. */
  datatype PlainKind = DateTime | Date | Str | Number | Int64 | Int32 | Boolean

  function PlainName(k: PlainKind): string
  {
    match k
    case DateTime => "date-time"
    case Date => "date"
    case Str => "string"
    case Number => "number"
    case Int64 => "int64"
    case Int32 => "int32"
    case Boolean => "boolean"
  }

  /** The plain kind whose wire name is `s`, if there is one. Exactly the seven names are
      recognised, and each names its own kind. */
  function PlainKindNamed(s: string): (k: Option<PlainKind>)
    ensures k.Some? ==> PlainName(k.value) == s
    ensures forall p: PlainKind :: PlainName(p) == s ==> k == Some(p)
  {
    if s == "date-time" then Some(DateTime)
    else if s == "date" then Some(Date)
    else if s == "string" then Some(Str)
    else if s == "number" then Some(Number)
    else if s == "int64" then Some(Int64)
    else if s == "int32" then Some(Int32)
    else if s == "boolean" then Some(Boolean)
    else None
  }

  /** The value of an extra tag: a text from `x-extra-tags`, or the name list of
      `x-permissions`. */
  datatype TagValue = Text(text: string) | Names(names: seq<string>)

  datatype ExtraTag = ExtraTag(key: string, value: TagValue)

  /** Where a reference sits below a field: inside a map's values or an array's elements.
      A reference with no nesting is the field itself. */
  datatype Nesting = InMap | InArray

  /** The field a reference was found in. */
  datatype AttributeInfo = AttributeInfo(name: string, required: bool)

  /** A cross-reference collected for the client emitter. An absent `isExtension` is false. */
  datatype TSRef = TSRef(name: string, attributeInfo: Option<AttributeInfo>, nesting: Option<Nesting>, isExtension: bool)

  /** One field of an object. `nullable` may be absent; the emitters read absence as false. */
  datatype Prop = Prop(
    name: string,
    required: bool,
    nullable: Option<bool>,
    description: Option<string>,
    typ: PropSpec,
    extraTags: seq<ExtraTag>)

  /** The resolved type of one position. Only `Object` carries extensions; `Array` and `Map`
      each wrap one child, so every specification is a finite tree. */
  datatype PropSpec =
    | Plain(kind: PlainKind)
    | Enum(values: seq<string>)
    | Ref(target: string)
    | Array(element: PropSpec)
    | Map(valueSpec: PropSpec)
    | Object(properties: seq<Prop>, extensions: seq<string>)

  /** The containers from the outside in, down to the first non-container type. */
  function Containers(spec: PropSpec): seq<Nesting>
  {
    match spec
    case Array(element) => [InArray] + Containers(element)
    case Map(valueSpec) => [InMap] + Containers(valueSpec)
    case _ => []
  }

  /** The first non-container type below `spec`. */
  function Leaf(spec: PropSpec): (leaf: PropSpec)
    ensures !leaf.Array? && !leaf.Map?
  {
    match spec
    case Array(element) => Leaf(element)
    case Map(valueSpec) => Leaf(valueSpec)
    case _ => spec
  }

  predicate IsNullable(p: Prop)
  {
    p.nullable == Some(true)
  }

  /** The reference accumulator of one schema: `tsRefs` is an ordered list that may repeat
      names, `goRefs` an insertion-ordered set of Go import paths. The resolver appends to
      both while it descends. */
  class Meta {
    const name: string
    var tsRefs: seq<TSRef>
    var goRefs: seq<string>

    constructor(name: string)
      ensures this.name == name && tsRefs == [] && goRefs == []
    {
      this.name := name;
      tsRefs := [];
      goRefs := [];
    }

    /** `meta.tsRefs.push(r)`. */
    method PushTsRef(r: TSRef)
      modifies this
      ensures tsRefs == old(tsRefs) + [r] && goRefs == old(goRefs)
    {
      tsRefs := tsRefs + [r];
    }

    /** `meta.goRefs.add(g)`: a name already present is not added again. */
    method AddGoRef(g: string)
      modifies this
      ensures goRefs == Text.Add(old(goRefs), g) && tsRefs == old(tsRefs)
    {
      if g !in goRefs {
        goRefs := goRefs + [g];
      }
    }
  }

  /** One top-level definition of the document with its resolved specification and the
      accumulator filled while resolving it. */
  datatype Schema = Schema(name: string, spec: PropSpec, meta: Meta)

  /** The names of the schemas, in order. */
  function SchemaNames(schemas: seq<Schema>): (names: seq<string>)
    ensures |names| == |schemas| && forall i :: 0 <= i < |schemas| ==> names[i] == schemas[i].name
  {
    if schemas == [] then [] else [schemas[0].name] + SchemaNames(schemas[1..])
  }

  /** The accumulators of the schemas. */
  function Metas(schemas: seq<Schema>): set<Meta>
  {
    set i | 0 <= i < |schemas| :: schemas[i].meta
  }

  /** The client cross-references of each schema, read from its accumulator. */
  function TsRefsOf(schemas: seq<Schema>): (refs: seq<seq<TSRef>>)
    reads Metas(schemas)
    ensures |refs| == |schemas| && forall i :: 0 <= i < |schemas| ==> refs[i] == schemas[i].meta.tsRefs
  {
    seq(|schemas|, i reads Metas(schemas) requires 0 <= i < |schemas| => schemas[i].meta.tsRefs)
  }

  /** The Go imports of each schema, read from its accumulator. */
  function GoRefsOf(schemas: seq<Schema>): (refs: seq<seq<string>>)
    reads Metas(schemas)
    ensures |refs| == |schemas| && forall i :: 0 <= i < |schemas| ==> refs[i] == schemas[i].meta.goRefs
  {
    seq(|schemas|, i reads Metas(schemas) requires 0 <= i < |schemas| => schemas[i].meta.goRefs)
  }

  /** The accumulator of each schema holds `tsRefs[i]` and `goRefs[i]`. */
  ghost predicate Accumulators(schemas: seq<Schema>, tsRefs: seq<seq<TSRef>>, goRefs: seq<seq<string>>)
    reads Metas(schemas)
  {
    && |tsRefs| == |schemas| && |goRefs| == |schemas|
    && forall i :: 0 <= i < |schemas| ==> schemas[i].meta.tsRefs == tsRefs[i] && schemas[i].meta.goRefs == goRefs[i]
  }

  /** The four HTTP methods a request may have. */
  datatype Method = Get | Post | Put | Delete

  /** The lower-case wire name of a method. */
  function MethodName(m: Method): string
  {
    match m
    case Get => "get"
    case Post => "post"
    case Put => "put"
    case Delete => "delete"
  }

  /** One operation of the document. `path` uses `:param` tokens; `permissions` is present on
      every request collected from the document (an empty name list when the operation has
      none) and absent on the request the Go emitter adds for the index route. */
  datatype Request = Request(
    path: string,
    requestType: Method,
    description: Option<string>,
    name: string,
    category: string,
    permissions: Option<TagValue>)

  /** Where and how the Go files are generated. */
  datatype GoGenerateTarget = GoGenerateTarget(base: string, models: string, withRouters: bool, ignoredFiles: seq<string>)

  /** A request array owned by the caller, which an emitter may change in place. */
  class RequestList {
    var items: seq<Request>

    constructor(items: seq<Request>)
      ensures this.items == items
    {
      this.items := items;
    }

    /** `requests.unshift(r)`. */
    method Unshift(r: Request)
      modifies this
      ensures items == [r] + old(items)
    {
      items := [r] + items;
    }
  }
}
