/**
 * The Go emitter: renders each schema's PropSpec as a Go type declaration, renders the
 * route table, and reconciles the models directory.
 *
 * The comment helpers the emitter calls (for properties, files and the route file) are
 * not part of this model; they are taken to produce no text.
 */
module Golang {
  import opened Wrappers
  import opened Types
  import Text
  import Files
  import Resolver
  import ResolverFacts

  /** The base path every route pattern starts with. */
  const BasePath := "/v1"

  /** `_indentNewLines(s, tabs)`: a tab run after every newline that starts a non-empty line. */
  function IndentNewLines(s: string, tabs: nat): string
  {
    Text.IndentNewLines(s, Text.Tabs(tabs))
  }

  /** `toUpperCase` on one character, for the ASCII letters. */
  function UpperAscii(c: char): (u: char)
    ensures 'a' <= c <= 'z' ==> 'A' <= u <= 'Z' && u as int == c as int - 32
    ensures !('a' <= c <= 'z') ==> u == c
  {
    if 'a' <= c <= 'z' then (c as int - 32) as char else c
  }

  /** `_capitalize(s)`: the empty text for a non-string, otherwise the string with its first
      character upper-cased. */
  function Capitalize(s: Option<string>): (r: string)
    ensures s.None? ==> r == ""
    ensures s.Some? ==> |r| == |s.value|
    ensures s.Some? && s.value != [] ==> r[0] == UpperAscii(s.value[0]) && r[1..] == s.value[1..]
  {
    if s.None? || s.value == [] then "" else [UpperAscii(s.value[0])] + s.value[1..]
  }

  /** Capitalizing twice is capitalizing once. */
  lemma CapitalizeIdempotent(s: string)
    ensures Capitalize(Some(Capitalize(Some(s)))) == Capitalize(Some(s))
  {
  }

  /** The text of a tag value inside a template literal: a name list is joined by commas. */
  function TagValueText(v: TagValue): string
  {
    match v
    case Text(t) => t
    case Names(ns) => Text.Join(ns, ",")
  }

  /** `key:"value"`. */
  function TagText(t: ExtraTag): string
  {
    t.key + ":\"" + TagValueText(t.value) + "\""
  }

  function TagTexts(tags: seq<ExtraTag>): (r: seq<string>)
    ensures |r| == |tags| && forall i :: 0 <= i < |tags| ==> r[i] == TagText(tags[i])
  {
    if tags == [] then [] else [TagText(tags[0])] + TagTexts(tags[1..])
  }

  /** `serializeExtraTags(tags)`: the tags as `key:"value"`, separated by single spaces. */
  function SerializeExtraTags(tags: seq<ExtraTag>): string
  {
    Text.Join(TagTexts(tags), " ")
  }

  /** The serialized tags are empty exactly when there are no tags. */
  lemma SerializeExtraTagsEmpty(tags: seq<ExtraTag>)
    ensures SerializeExtraTags(tags) == "" <==> tags == []
  {
    var parts := TagTexts(tags);
    forall i | 0 <= i < |parts| ensures parts[i] != "" {
      assert |parts[i]| >= 3;
    }
    Text.JoinEmptyIff(parts, " ");
  }

  /** The Go type of a plain kind: exactly the string and the two integer kinds keep their
      own name. */
  function PlainType(k: PlainKind): (t: string)
    ensures t == PlainName(k) <==> k == Str || k == Int64 || k == Int32
    ensures t == "string" <==> k == Str || k == Date
  {
    match k
    case Str => "string"
    case Int64 => "int64"
    case Int32 => "int32"
    case DateTime => "time.Time"
    case Date => "string"
    case Number => "float32"
    case Boolean => "bool"
  }

  /** `serializePropSpec(spec)`. An enumeration serializes to its values array, which a
      template literal renders as the values joined by commas. */
  function Serialize(spec: PropSpec): string
    decreases spec, 1
  {
    match spec
    case Plain(k) => PlainType(k)
    case Ref(name) => name
    case Enum(values) => Text.Join(values, ",")
    case Array(element) => SlicePrefix + Serialize(element)
    case Map(valueSpec) => MapPrefix + Serialize(valueSpec)
    case Object(properties, extensions) => StringifyPropertiesType(properties, extensions)
  }

  /** `stringifyPropertiesType(properties, extensions)`: a struct body that embeds the
      extensions and lists one field per property; without own properties, the one
      extension's name, or `{}`. */
  function StringifyPropertiesType(properties: seq<Prop>, extensions: seq<string>): string
    decreases Object(properties, extensions), 0
  {
    if |properties| > 0 then
      "{" + (if |extensions| > 0 then IndentNewLines("\n" + Text.Join(extensions, "\n\n") + "\n", 1) else "")
      + "\n\t" + IndentNewLines(Text.Join(Fields(properties), "\n\n"), 1) + "\n}"
    else if |extensions| == 1 then extensions[0]
    else "{}"
  }

  /** Without own properties, a single extension is the type itself; two or more
      extensions are dropped along with the struct. */
  lemma StructWithoutProperties(extensions: seq<string>)
    ensures |extensions| == 1 ==> StringifyPropertiesType([], extensions) == extensions[0]
    ensures |extensions| != 1 ==> StringifyPropertiesType([], extensions) == "{}"
  {
  }

  /** With own properties the type is a struct body in braces. */
  lemma StructBraces(properties: seq<Prop>, extensions: seq<string>)
    requires properties != []
    ensures var t := StringifyPropertiesType(properties, extensions);
      |t| >= 2 && t[0] == '{' && t[|t| - 1] == '}'
  {
  }

  function Fields(properties: seq<Prop>): (r: seq<string>)
    decreases properties
    ensures |r| == |properties| && forall i :: 0 <= i < |properties| ==> r[i] == Field(properties[i])
  {
    if properties == [] then [] else [Field(properties[0])] + Fields(properties[1..])
  }

  /** One struct field: the capitalized name, its type and its struct tag. */
  function Field(p: Prop): string
    decreases p, 1
  {
    Capitalize(Some(p.name)) + " " + FieldType(p) + " " + FieldTag(p)
  }

  /** The type of a field: a pointer to the serialized type when the field is nullable. */
  function FieldType(p: Prop): string
    decreases p, 0
  {
    (if IsNullable(p) then "*" else "") + Serialize(p.typ)
  }

  /** The struct tag of a field: the json key with `,omitempty` for an optional field, and
      the extra tags after one space when there are any. */
  function FieldTag(p: Prop): string
  {
    var tags := SerializeExtraTags(p.extraTags);
    "`json:\"" + p.name + (if p.required then "" else ",omitempty") + "\""
    + (if tags != "" then " " + tags else "") + "`"
  }

  /** The field's type is a pointer exactly when the field is nullable (for a type that is
      not itself written with a leading `*`), and the serialized type follows. */
  lemma FieldTypeFlag(p: Prop)
    requires var t := Serialize(p.typ); t == [] || t[0] != '*'
    ensures var t := FieldType(p);
      && (t != [] && t[0] == '*' <==> IsNullable(p))
      && t[if IsNullable(p) then 1 else 0..] == Serialize(p.typ)
  {
  }

  /** After the json key, the tag carries `,omitempty` exactly when the field is optional;
      after the closing quote of the json part comes a space exactly when there are extra
      tags, followed by the serialized extra tags. */
  lemma FieldTagFlags(p: Prop)
    ensures var tag, key := FieldTag(p), "`json:\"" + p.name;
      var k := |key| + if p.required then 0 else 10;
      && |tag| >= k + 2 && tag[..|key|] == key
      && (tag[|key|] == ',' <==> !p.required)
      && tag[k] == '"'
      && (tag[k + 1] == ' ' <==> p.extraTags != [])
      && (p.extraTags != [] ==> tag[k + 2..|tag| - 1] == SerializeExtraTags(p.extraTags))
      && tag[|tag| - 1] == '`'
  {
    var tags := SerializeExtraTags(p.extraTags);
    SerializeExtraTagsEmpty(p.extraTags);
    var key := "`json:\"" + p.name;
    var omit := if p.required then "" else ",omitempty";
    var extra := if tags != "" then " " + tags else "";
    var tag := FieldTag(p);
    assert tag == key + omit + "\"" + extra + "`";
    var k := |key| + |omit|;
    assert tag[k] == '"';
    if p.extraTags != [] {
      assert tag[k + 1] == ' ';
      assert tag[k + 2..|tag| - 1] == tags;
    } else {
      assert tag[k + 1] == '`';
    }
  }

  const SlicePrefix := "[]"
  const MapPrefix := "map[string]"

  /** Reads a Go type back as its container prefixes and the remaining type name. */
  function ParseGoType(t: string): (r: (seq<Nesting>, string))
    decreases |t|
  {
    if Text.HasPrefix(t, SlicePrefix) then
      var (nest, leaf) := ParseGoType(t[|SlicePrefix|..]);
      ([InArray] + nest, leaf)
    else if Text.HasPrefix(t, MapPrefix) then
      var (nest, leaf) := ParseGoType(t[|MapPrefix|..]);
      ([InMap] + nest, leaf)
    else ([], t)
  }

  /** The Go type of nested arrays and maps can be read back: the prefixes give the
      containers in order and the rest is the type of the innermost element, provided that
      type does not itself start like a container. */
  lemma {:induction false} GoTypeRoundTrip(spec: PropSpec)
    requires var leaf := Serialize(Leaf(spec)); !Text.HasPrefix(leaf, SlicePrefix) && !Text.HasPrefix(leaf, MapPrefix)
    ensures ParseGoType(Serialize(spec)) == (Containers(spec), Serialize(Leaf(spec)))
  {
    match spec
    case Array(element) =>
      var t := Serialize(spec);
      assert t == SlicePrefix + Serialize(element);
      assert t[|SlicePrefix|..] == Serialize(element);
      GoTypeRoundTrip(element);
    case Map(valueSpec) =>
      var t := Serialize(spec);
      assert t == MapPrefix + Serialize(valueSpec);
      assert !Text.HasPrefix(t, SlicePrefix) by { assert t[0] == 'm'; }
      assert t[|MapPrefix|..] == Serialize(valueSpec);
      GoTypeRoundTrip(valueSpec);
    case _ =>
  }

  /** `Name_value Name = "value"`. */
  function EnumConstant(name: string, value: string): string
  {
    name + "_" + value + " " + name + " = \"" + value + "\""
  }

  function EnumConstants(name: string, values: seq<string>): (r: seq<string>)
    ensures |r| == |values| && forall i :: 0 <= i < |values| ==> r[i] == EnumConstant(name, values[i])
  {
    if values == [] then [] else [EnumConstant(name, values[0])] + EnumConstants(name, values[1..])
  }

  /** The constant block of an enumeration, before indentation: one constant per value, in
      declared order, separated by blank lines. */
  function EnumBody(name: string, values: seq<string>): string
  {
    Text.Join(EnumConstants(name, values), "\n\n")
  }

  /** `enumType(name, values)`: a string type and its constants. */
  function EnumType(name: string, values: seq<string>): string
  {
    "type " + name + " string\n\n// List of " + name + "\nconst (\n\t" + IndentNewLines(EnumBody(name, values), 1) + "\n)"
  }

  /** The constants block of an enumeration can be read back: removing the indentation
      gives one constant per value, in order. */
  lemma EnumTypeBlock(name: string, values: seq<string>)
    ensures var head := "type " + name + " string\n\n// List of " + name + "\nconst (\n\t";
      var t := EnumType(name, values);
      && |t| >= |head| + 2
      && t[..|head|] == head && t[|t| - 2..] == "\n)"
      && Text.StripIndent(t[|head|..|t| - 2], "\t") == EnumBody(name, values)
  {
    var head := "type " + name + " string\n\n// List of " + name + "\nconst (\n\t";
    var body := IndentNewLines(EnumBody(name, values), 1);
    var t := EnumType(name, values);
    assert t == head + body + "\n)";
    assert t[|head|..|t| - 2] == body;
    assert Text.Tabs(1) == "\t";
    assert Text.NoLineTerminator("\t");
    Text.StripIndentOfIndent(EnumBody(name, values), "\t");
  }

  function Quoted(refs: seq<string>): (r: seq<string>)
    ensures |r| == |refs| && forall i :: 0 <= i < |refs| ==> r[i] == "\"" + refs[i] + "\""
  {
    if refs == [] then [] else ["\"" + refs[0] + "\""] + Quoted(refs[1..])
  }

  /** `stringifyImports(goRefs)`: an import block with one quoted path per line, or nothing
      for an empty set. */
  function StringifyImports(refs: seq<string>): (r: string)
    ensures r == "" <==> refs == []
    ensures refs != [] ==> |r| >= 10 && r[..10] == "import (\n\t" && r[|r| - 2..] == "\n)"
  {
    if |refs| > 0 then "import (\n\t" + IndentNewLines(Text.Join(Quoted(refs), "\n"), 1) + "\n)" else ""
  }

  /** The import block of a schema that imports `time` alone. */
  lemma TimeImport()
    ensures StringifyImports(["time"]) == "import (\n\t\"time\"\n)"
  {
    var q := "\"time\"";
    assert "\"" + "time" + "\"" == q && ["time"][1..] == [];
    assert Quoted(["time"]) == [q];
    assert Text.Join([q], "\n") == q;
    assert '\n' !in q;
    Text.IndentWithoutNewlines(q, Text.Tabs(1));
    assert StringifyImports(["time"]) == "import (\n\t" + q + "\n)";
  }

  /** The import block of every parsed schema is empty or imports `time` alone. */
  lemma SchemaImports(d: Resolver.Entry)
    ensures var block := StringifyImports(Text.AddAll([], Resolver.Definition(d).goRefs));
      block == "" || block == "import (\n\t\"time\"\n)"
  {
    ResolverFacts.SchemaGoRefs(d);
    TimeImport();
  }

  /** The declaration of one schema: an enumeration, a struct, or a type alias. */
  function OwnContent(name: string, spec: PropSpec): string
  {
    if spec.Enum? then EnumType(name, spec.values)
    else if spec.Object? then "type " + name + " struct " + Serialize(spec)
    else "type " + name + " = " + Serialize(spec)
  }

  /** `fileContent(source, schema)`: the package clause, then the import block and the
      declaration, trimmed, then a final newline. */
  function FileContent(name: string, spec: PropSpec, goRefs: seq<string>): string
  {
    PackageFile(StringifyImports(goRefs), OwnContent(name, spec))
  }

  /** The file around an import block and a declaration. */
  function PackageFile(imports: string, own: string): string
  {
    "package openapi\n\n" + Text.Trim("\n" + imports + "\n\n" + own + "\n") + "\n"
  }

  /** Every declaration starts with the `type` keyword. */
  lemma OwnContentIsType(name: string, spec: PropSpec)
    ensures |OwnContent(name, spec)| > 5 && OwnContent(name, spec)[..5] == "type "
  {
  }

  /** When the declaration does not end in white space, the file is the package clause,
      the import block followed by a blank line when there are imports, the declaration
      and a newline. */
  lemma FileContentLayout(goRefs: seq<string>, own: string)
    requires |own| > 5 && own[..5] == "type " && !Text.IsJsWhitespace(own[|own| - 1])
    ensures PackageFile(StringifyImports(goRefs), own) ==
      "package openapi\n\n" + ((if goRefs == [] then "" else StringifyImports(goRefs) + "\n\n") + own) + "\n"
  {
    var imports := StringifyImports(goRefs);
    assert own[0] == own[..5][0] == 't';
    if imports != [] {
      assert imports[|imports| - 1] == imports[|imports| - 2..][1] == ')';
      assert imports[0] == imports[..10][0] == 'i';
    }
    TrimmedLayout(imports, own);
  }

  /** Trimming the import block and the declaration, each free of surrounding white space,
      drops only the padding around them. */
  lemma TrimmedLayout(imports: string, own: string)
    requires imports == [] || (imports[0] == 'i' && imports[|imports| - 1] == ')')
    requires own != [] && own[0] == 't' && !Text.IsJsWhitespace(own[|own| - 1])
    ensures Text.Trim("\n" + imports + "\n\n" + own + "\n") == (if imports == [] then "" else imports + "\n\n") + own
  {
    if imports == [] {
      assert "\n" + imports + "\n\n" + own + "\n" == "\n\n\n" + own + "\n";
      Text.TrimPadded("\n\n\n", own, "\n");
    } else {
      var core := imports + "\n\n" + own;
      assert core[|core| - 1] == own[|own| - 1];
      assert "\n" + imports + "\n\n" + own + "\n" == "\n" + core + "\n";
      Text.TrimPadded("\n", core, "\n");
    }
  }

  /** One row of the route table: the request with its name and method capitalized. */
  datatype Route = Route(path: string, requestType: string, description: Option<string>, name: string)

  function RouteOf(r: Request): Route
  {
    Route(r.path, Capitalize(Some(MethodName(r.requestType))), r.description, Capitalize(Some(r.name)))
  }

  /** The route table keeps the requests' order, one route per request. */
  function Routes(requests: seq<Request>): (routes: seq<Route>)
    ensures |routes| == |requests| && forall i :: 0 <= i < |requests| ==> routes[i] == RouteOf(requests[i])
  {
    if requests == [] then [] else [RouteOf(requests[0])] + Routes(requests[1..])
  }

  /** The capitalized methods name the `net/http` method constants. */
  lemma RouteMethods(r: Request)
    ensures RouteOf(r).requestType == match r.requestType
      case Get => "Get" case Post => "Post" case Put => "Put" case Delete => "Delete"
  {
  }

  /** `{ path, name }` as an endpoint constant. */
  function EndpointConstant(r: Route): string
  {
    "// " + r.name + "Endpoint the path of the " + r.name + " endpoint\n" + r.name + "Endpoint = \"" + BasePath + r.path + "\""
  }

  /** `{ requestType, name }` as an entry of the route list. */
  function RouteEntry(r: Route): string
  {
    "{\n\tName:        \"" + r.name + "\",\n\tMethod:      http.Method" + r.requestType + ",\n\tPattern:     " + r.name
    + "Endpoint,\n\tHandlerFunc: router." + r.name + "(),\n},"
  }

  /** Every newline of `s` replaced by a space. */
  function NewlinesToSpaces(s: string): (r: string)
    ensures |r| == |s| && '\n' !in r
  {
    if s == [] then [] else [if s[0] == '\n' then ' ' else s[0]] + NewlinesToSpaces(s[1..])
  }

  /** `{ description, name }` as a method of the router interface. */
  function RouterMethod(r: Route): string
  {
    var summary := if r.description.Some? && r.description.value != "" then " " + Text.Trim(NewlinesToSpaces(r.description.value)) else "";
    "// " + r.name + summary + "\n" + r.name + "() ContextHandler"
  }

  function EndpointConstants(routes: seq<Route>): (r: seq<string>)
    ensures |r| == |routes| && forall i :: 0 <= i < |routes| ==> r[i] == EndpointConstant(routes[i])
  {
    if routes == [] then [] else [EndpointConstant(routes[0])] + EndpointConstants(routes[1..])
  }

  function RouteEntries(routes: seq<Route>): (r: seq<string>)
    ensures |r| == |routes| && forall i :: 0 <= i < |routes| ==> r[i] == RouteEntry(routes[i])
  {
    if routes == [] then [] else [RouteEntry(routes[0])] + RouteEntries(routes[1..])
  }

  function RouterMethods(routes: seq<Route>): (r: seq<string>)
    ensures |r| == |routes| && forall i :: 0 <= i < |routes| ==> r[i] == RouterMethod(routes[i])
  {
    if routes == [] then [] else [RouterMethod(routes[0])] + RouterMethods(routes[1..])
  }

  /** The fixed part of the route file before the endpoint constants. */
  const RoutersPreamble :=
    "\npackage openapi\n\nimport (\n\t\"context\"\n\t\"github.com/gin-gonic/gin\"\n\t\"net/http\"\n)\n\n"
    + "// ContextHandler the handler type that allows access to the current go and gin context\n"
    + "type ContextHandler func(ctx context.Context, c *gin.Context)\n\n"
    + "// Route is the information for every URI.\ntype Route struct {\n"
    + "\t// Name is the name of this Route.\n\tName string\n"
    + "\t// Method is the string for the HTTP method. ex) GET, POST etc..\n\tMethod string\n"
    + "\t// Pattern is the pattern of the URI.\n\tPattern string\n"
    + "\t// HandlerFunc is the handler function of this route.\n\tHandlerFunc ContextHandler\n}\n\n"
    + "const (\n\t"

  /** The fixed text between the endpoint constants and the route list. */
  const RoutesHeader :=
    "\n)\n\n// Routes is the list of the generated Route.\ntype Routes []Route\n\n"
    + "// CreateRoutes creates the routes of the given router\nfunc CreateRoutes(router Router) Routes {\n    return Routes{\n\t\t"

  /** The fixed text between the route list and the router interface's methods. */
  const RouterHeader := "\n    }\n}\n\n// Router the router that defines the gateway\ntype Router interface {\n\t"

  /** `routers(source, title, description, routes)`: the endpoint constants, the route list
      and the router interface, each with one item per route in order. */
  function RoutersText(routes: seq<Route>): string
  {
    RoutersPreamble
    + IndentNewLines(Text.Join(EndpointConstants(routes), "\n\n"), 1)
    + RoutesHeader
    + IndentNewLines(Text.Join(RouteEntries(routes), "\n"), 2)
    + RouterHeader
    + IndentNewLines(Text.Join(RouterMethods(routes), "\n\n"), 1)
    + "\n}\n"
  }

  /** The request the emitter adds for the index route. */
  const IndexRequest := Request("/", Get, None, "index", "index", None)

  /** The names the reconciliation keeps: the bare schema names, the ignored files, and the
      route file when routes are generated. */
  function KeepList(schemas: seq<Schema>, target: GoGenerateTarget): seq<string>
  {
    SchemaNames(schemas) + target.ignoredFiles + (if target.withRouters then ["routers.go"] else [])
  }

  lemma KeepListMembers(schemas: seq<Schema>, target: GoGenerateTarget, f: string)
    ensures f in KeepList(schemas, target) <==>
      (exists i :: 0 <= i < |schemas| && schemas[i].name == f) || f in target.ignoredFiles || (target.withRouters && f == "routers.go")
  {
    var names := SchemaNames(schemas);
    if f in names {
      var i :| 0 <= i < |names| && names[i] == f;
      assert schemas[i].name == f;
    }
    if exists i :: 0 <= i < |schemas| && schemas[i].name == f {
      var i :| 0 <= i < |schemas| && schemas[i].name == f;
      assert names[i] == f;
    }
  }

  /** The file name of each schema: its name with the `.go` extension. */
  function GoFileNames(schemas: seq<Schema>): (names: seq<string>)
    ensures |names| == |schemas| && forall i :: 0 <= i < |schemas| ==> names[i] == schemas[i].name + ".go"
  {
    seq(|schemas|, i requires 0 <= i < |schemas| => schemas[i].name + ".go")
  }

  /** The content of each schema's file; `refs` holds each schema's Go imports. */
  function GoFileContents(schemas: seq<Schema>, refs: seq<seq<string>>): (contents: seq<string>)
    requires |refs| == |schemas|
    ensures |contents| == |schemas|
    ensures forall i :: 0 <= i < |schemas| ==> contents[i] == FileContent(schemas[i].name, schemas[i].spec, refs[i])
  {
    seq(|schemas|, i requires 0 <= i < |schemas| => FileContent(schemas[i].name, schemas[i].spec, refs[i]))
  }

  /** The models directory after `generate`: stale entries deleted, one file per schema,
      holding `contents[i]` for `schemas[i]`, and, when routes are generated, the route file
      holding `routers`. */
  function Output(files: map<string, string>, schemas: seq<Schema>, contents: seq<string>, target: GoGenerateTarget, routers: string): map<string, string>
    requires |contents| == |schemas|
  {
    var written := Files.WriteAll(Files.Kept(files, KeepList(schemas, target)), GoFileNames(schemas), contents);
    if target.withRouters then written["routers.go" := routers] else written
  }

  /** An entry survives `generate` when it is on the keep-list, and the schema files and
      the route file are (re)written; every other entry is deleted. A schema's own `.go`
      file is never on the keep-list, so it is deleted and then written again. */
  lemma OutputFiles(files: map<string, string>, schemas: seq<Schema>, contents: seq<string>, target: GoGenerateTarget, routers: string, f: string)
    requires |contents| == |schemas|
    ensures f in Output(files, schemas, contents, target, routers) <==>
      (f in files && f in KeepList(schemas, target))
      || (exists i :: 0 <= i < |schemas| && schemas[i].name + ".go" == f)
      || (target.withRouters && f == "routers.go")
  {
    var kept := Files.Kept(files, KeepList(schemas, target));
    var names := GoFileNames(schemas);
    Files.WriteAllKeys(kept, names, contents, f);
    if f in names {
      var i :| 0 <= i < |names| && names[i] == f;
      assert schemas[i].name + ".go" == f;
    }
  }

  /** Two schema file names are equal only for equal schema names. */
  lemma GoFileNameInjective(a: string, b: string)
    requires a + ".go" == b + ".go"
    ensures a == b
  {
    assert |a| == |b|;
    assert a == (a + ".go")[..|a|];
  }

  /** After `generate`, the file of a schema holds that schema's content, the last one for
      a repeated name, unless the route file overwrote it. */
  lemma OutputSchemaFile(files: map<string, string>, schemas: seq<Schema>, contents: seq<string>, target: GoGenerateTarget, routers: string, i: nat)
    requires |contents| == |schemas| && i < |schemas|
    requires forall j :: i < j < |schemas| ==> schemas[j].name != schemas[i].name
    requires !(target.withRouters && schemas[i].name == "routers")
    ensures var out := Output(files, schemas, contents, target, routers);
      schemas[i].name + ".go" in out && out[schemas[i].name + ".go"] == contents[i]
  {
    var kept := Files.Kept(files, KeepList(schemas, target));
    var names := GoFileNames(schemas);
    var f := schemas[i].name + ".go";
    forall j | i < j < |names| ensures names[j] != f {
      if names[j] == f {
        GoFileNameInjective(schemas[j].name, schemas[i].name);
      }
    }
    Files.WriteAllContent(kept, names, contents, f);
    if target.withRouters {
      assert f != "routers.go" by {
        if f == "routers.go" {
          GoFileNameInjective(schemas[i].name, "routers");
        }
      }
    }
  }

  /** The loop of `generate` that writes one file per schema; `refs` holds each schema's
      Go imports. */
  method WriteSchemas(dir: Files.Directory, schemas: seq<Schema>, ghost refs: seq<seq<string>>)
    requires |refs| == |schemas| && forall i :: 0 <= i < |schemas| ==> refs[i] == schemas[i].meta.goRefs
    modifies dir
    ensures dir.files == Files.WriteAll(old(dir.files), GoFileNames(schemas), GoFileContents(schemas, refs))
  {
    ghost var names, contents := GoFileNames(schemas), GoFileContents(schemas, refs);
    var i := 0;
    while i < |schemas|
      invariant 0 <= i <= |schemas|
      invariant dir.files == Files.WriteAll(old(dir.files), names[..i], contents[..i])
    {
      var s := schemas[i];
      var goRefs := s.meta.goRefs;
      assert goRefs == refs[i];
      var content := FileContent(s.name, s.spec, goRefs);
      assert content == contents[i] && s.name + ".go" == names[i];
      Files.WriteAllStep(old(dir.files), names, contents, i);
      dir.Write(s.name + ".go", content);
      i := i + 1;
    }
    assert names[..i] == names && contents[..i] == contents;
  }

  /** `generate`: reconciles the models directory and, with routes, prepends the index
      request to the caller's request list and writes the route file. */
  method Generate(dir: Files.Directory, requests: RequestList, schemas: seq<Schema>, target: GoGenerateTarget)
    modifies dir, requests
    ensures requests.items == if target.withRouters then [IndexRequest] + old(requests.items) else old(requests.items)
    ensures dir.files == Output(old(dir.files), schemas, GoFileContents(schemas, old(GoRefsOf(schemas))), target, RoutersText(Routes(requests.items)))
  {
    ghost var refs := GoRefsOf(schemas);
    var keep := KeepList(schemas, target);
    dir.Prune(keep);
    WriteSchemas(dir, schemas, refs);
    ghost var written := dir.files;
    if target.withRouters {
      requests.Unshift(IndexRequest);
      var text := RoutersText(Routes(requests.items));
      dir.Write("routers.go", text);
      assert dir.files == written["routers.go" := text];
    }
  }
}
