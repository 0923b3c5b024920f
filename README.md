# openapi-generator core, modelled in Dafny

This project models the middle of an OpenAPI code generator, and proves properties of the model.
The generator reads an OpenAPI 3 document and does three things:

- It resolves every schema definition into a typed intermediate representation (IR).
- It collects the document's operations into a sorted request list.
- It emits the IR twice: as Go types plus a route table, and as TypeScript types with one decode function per schema.

The modules follow the source files:

| module | file | what it holds |
|---|---|---|
| `Types` | `types.dfy` | the IR of `types.ts`: plain kinds, `PropSpec`, `Prop`, `TSRef`, `Request`, the target configuration, and the two mutable objects the source shares (the per-schema `Meta` accumulator and the caller's request array) as classes |
| `Resolver` | `resolver.dfy` | the resolver of `generate.ts` (`getRefName`, `getPropSpec`, `getProperties`, `getExtraTags`, `parseSchema`) |
| `ResolverFacts` | `resolver_facts.dfy` | the properties of the resolver, rule by rule |
| `Requests` | `requests.dfy` | the request pipeline of `generate.ts`: path rewriting, category, permissions, flattening and the two-key sort |
| `Golang` | `golang.dfy` | the Go emitter of `golang.ts` |
| `TypeScript` | `typescript.dfy` | the TypeScript emitter of `typescript.ts` |
| `Text` | `text.dfy` | the JavaScript built-ins the generator relies on: `join`, the `/\n(.+)/g` indentation rewrite, `trim`, string comparison, and the insertion-ordered `Set` |
| `Files` | `files.dfy` | the models directory, as a map from file names to contents |
| `Wrappers` | `wrappers.dfy` | `Option` and `Result` |

The resolver mutates its `Meta` accumulator while it recurses, so the model has two layers:

- The rules are pure functions (`ResolveNode`, `PropertiesUpTo`, `AllOfPropertiesUpTo`). Each returns its outcome together with the references it appends.
- The methods (`Resolve`, `GetProperties`, …) update a `Meta` object in place. Each is proved to append exactly what the functions describe.

The emitters' `generate` functions are methods on a `Files.Directory`:

- They delete every entry that is not on the keep-list.
- They write one file per schema in a loop.
- The TypeScript `parser` sorts the accumulator in place. The Go `generate` prepends a request to the caller's list.

Each of these states the whole new directory, accumulator or list as a function of the old one. Separate lemmas then state which files survive and what each file holds.

Where the code and the prose description of the system differ, the model follows the code:

- An integer node takes its `format` as the plain kind, whatever the format says.
- `additionalProperties: true` is not a map. It reaches the unsupported-node exit.
- A file named exactly like a schema (without extension) survives reconciliation. The schema's own `.go` or `.ts` file is deleted and then written again. The directory is therefore not an exact mirror of the document.
- The permissions of a request are the value of the first `x-permissions` tag. That tag may come from `x-extra-tags`, in which case it is a text, not a name list.
- Operation names are not checked for uniqueness.
- A reference that sits in a field needs a decode entry even when it is not nested.
- The TypeScript emitter is not called by the `generate` of `generate.ts`; it is modelled on its own.
- A date nested in an array or a map yields a call to `parseDate` or `parseDateWithoutTime`. No such name is ever imported, because the date types are removed from a module's schema imports. `TypeScript.DecodeCallsImported` proves this for every reference, and `TypeScript.NestedDateNotImported` shows it for a field holding an array of dates.

## Model

| member | source | states |
|---|---|---|
| Types.PlainKindNamed | code/src/types.ts:1 | exactly the seven wire names are plain kinds, and each names its own kind |
| Types.Leaf | code/src/types.ts:11-17 | below any nesting of arrays and maps there is a type that is neither: every spec is a finite tree |
| Types.Meta.constructor | code/src/generate.ts:106 | a new accumulator has the schema's name and no references |
| Types.Meta.PushTsRef | code/src/generate.ts:32 | `tsRefs.push` appends one reference at the end and leaves the Go imports alone |
| Types.Meta.AddGoRef | code/src/generate.ts:31 | `goRefs.add` is a set insertion: a name already present is not added again |
| Types.SchemaNames | code/src/golang.ts:183 | one name per schema, in schema order |
| Types.RequestList.Unshift | code/src/golang.ts:194 | the new request is first and the old ones follow in order |
| Resolver.RefName | code/src/generate.ts:8-11 | the name is the suffix after the last '/', holds no '/', and is the whole reference when it has no '/' |
| Resolver.ExtraTagsOf | code/src/generate.ts:91-103 | the `x-extra-tags` entries in order, then one `x-permissions` tag holding the list, exactly when that field is present |
| Resolver.Resolve | code/src/generate.ts:14-71 | `getPropSpec` returns the rule's result, appends exactly the rule's references to `tsRefs`, and adds its imports to the `goRefs` set |
| Resolver.ResolveAllOf | code/src/generate.ts:15-27 | the `allOf` rule: the members' properties, then one reference per extension, as the rule states |
| Resolver.PushExtensions | code/src/generate.ts:24 | one reference per extension in order, flagged as an extension when no attribute was passed; Go imports unchanged |
| Resolver.ResolveString | code/src/generate.ts:28-40 | the string rule mutates the accumulator exactly as the rule states |
| Resolver.GetProperties | code/src/generate.ts:73-89 | `getProperties` appends the references of every property in key order, and its result is the properties' records |
| Resolver.GetPropertiesUpTo | code/src/generate.ts:74-88 | the first `k` properties resolved in order, with their references appended |
| Resolver.GetAllOfProperties | code/src/generate.ts:16-18 | the properties of the `type: 'object'` members, concatenated in member order, with their references appended |
| Resolver.GetAllOfPropertiesUpTo | code/src/generate.ts:16-18 | the same for the first `k` members |
| Resolver.ParseSchema | code/src/generate.ts:105-109 | succeeds exactly when the definition resolves; the schema has the definition's name, a fresh accumulator holding the definition's references, and its Go imports without repeats |
| Resolver.ParseSchemas | code/src/generate.ts:133-135 | succeeds exactly when every definition resolves; then it yields one schema per definition, in order, each parsed from its definition, with pairwise distinct fresh accumulators |
| ResolverFacts.ExtensionNamesAppend | code/src/generate.ts:20-22 | the extension names of two member lists are those of the first followed by those of the second |
| ResolverFacts.ExtensionNamesAreRefNames | code/src/generate.ts:20-22 | a name is an extension exactly when it is the non-empty name of some `$ref` member |
| ResolverFacts.AllOfIsObject | code/src/generate.ts:15-27 | any `allOf` resolves to an object with the object members' properties and the `$ref` names as extensions; the last references appended are one per extension, `isExtension` exactly when no attribute was passed, carrying the attribute and the nesting |
| ResolverFacts.SingleRefAllOfIsObject | code/src/generate.ts:49-56 | a one-member `allOf` of a `$ref` is an object with that one extension, never a reference: the shortcut is unreachable |
| ResolverFacts.PlainNodes | code/src/generate.ts:28-42 | an enumeration wins over any format; plain strings, numbers and booleans yield their plain kind and change no accumulator |
| ResolverFacts.DateNodes | code/src/generate.ts:30-38 | a date-time adds `time` to the Go imports and appends a `Date` reference; a date appends only a `DateWithoutTime` reference; both carry the caller's attribute and nesting |
| ResolverFacts.IntegerNodes | code/src/generate.ts:43 | an integer is the plain kind its format names, `int64` when the format is absent or empty; no accumulator changes |
| ResolverFacts.ContainerNodes | code/src/generate.ts:57-63 | `items` gives an array and `additionalProperties` a map of the child, which is resolved with the same attribute; the node's own nesting plays no part |
| ResolverFacts.UnsupportedNodes | code/src/generate.ts:61-70 | a node that matches no rule, and `additionalProperties: true`, fail as unsupported for the owning schema and append nothing |
| ResolverFacts.PropertiesStep | code/src/generate.ts:74-88 | one more property succeeds exactly when those before it and its own resolution succeed |
| ResolverFacts.PropertiesSucceed | code/src/generate.ts:73-89 | `getProperties` succeeds exactly when every property resolves |
| ResolverFacts.PropertiesShape | code/src/generate.ts:74-88 | one record per key in key order: its name, `required` exactly when the key is listed as required, its nullability, description and extra tags, and the type resolved with the attribute `{name, required}` |
| ResolverFacts.ResolveGoRefsAreTime | code/src/generate.ts:31 | the only Go import the resolver registers is `time` |
| ResolverFacts.PropertiesGoRefsAreTime | code/src/generate.ts:73-89 | the same for the properties of an object |
| ResolverFacts.AllOfGoRefsAreTime | code/src/generate.ts:16-18 | the same for the members of an `allOf` |
| ResolverFacts.SchemaGoRefs | code/src/generate.ts:105-109 | a parsed schema's Go import set is empty or `time` alone |
| Requests.ConvertPathWithoutParameters | code/src/generate.ts:140 | a path without '{' is unchanged |
| Requests.ConvertPathParameter | code/src/generate.ts:140 | every `{p}` with a non-empty name becomes `:p`, and the rest of the path is converted the same way |
| Requests.ConvertPathAtParameter | code/src/generate.ts:140 | a parameter at the start of a path becomes `:p` |
| Requests.EmptyBracesKept | code/src/generate.ts:140 | `{}` is not a parameter and stays |
| Requests.Category | code/src/generate.ts:148 | the first tag, or `index` when there is no tag or the first tag is empty; never empty |
| Requests.Permissions | code/src/generate.ts:141-142 | the value of the first `x-permissions` tag, the empty list when there is none or its value is the empty text |
| Requests.RequestPermissions | code/src/generate.ts:141-142 | an operation without an `x-permissions` key in `x-extra-tags` carries its `x-permissions` list, or the empty list |
| Requests.OperationsOf | code/src/generate.ts:139-152 | one request per operation of a path, in order |
| Requests.FlattenHas | code/src/generate.ts:137-154 | every operation of every path yields its request in the flattened list |
| Requests.FlattenFrom | code/src/generate.ts:137-154 | every flattened request comes from one operation of one path |
| Requests.RequestOrderMeaning | code/src/generate.ts:155 | with comparisons in {-1, 0, 1}, the comparator orders by category first and by name among equal categories, and is 0 exactly when both keys are equal |
| Requests.NotAfterTotal | code/src/generate.ts:155 | any two requests are ordered one way or the other |
| Requests.NotAfterTransitive | code/src/generate.ts:155 | the order is transitive |
| Requests.InsertSorted | code/src/generate.ts:155 | inserting into a sorted list keeps it sorted |
| Requests.SortRequestsCorrect | code/src/generate.ts:155 | the sorted list is ordered and is a permutation of its input |
| Requests.CollectRequestsCorrect | code/src/generate.ts:137-155 | the request list is sorted, holds each operation's request as often as it occurs, and nothing else |
| Golang.PlainType | code/src/golang.ts:113-118 | exactly `string`, `int64` and `int32` keep their own names; `string` is the type of exactly the string and date kinds |
| Golang.Capitalize | code/src/golang.ts:83-86 | the empty text for a non-string; otherwise same length, the first character upper-cased, the rest unchanged |
| Golang.CapitalizeIdempotent | code/src/golang.ts:83-86 | capitalizing twice is capitalizing once |
| Golang.SerializeExtraTagsEmpty | code/src/golang.ts:108-109 | the tag text is empty exactly when there are no tags |
| Golang.StructWithoutProperties | code/src/golang.ts:104-106 | without properties: the single extension's name, otherwise `{}`, so two or more extensions are dropped |
| Golang.StructBraces | code/src/golang.ts:89-103 | with properties, the type is a struct body in braces |
| Golang.Fields | code/src/golang.ts:92-101 | one field per property, in order |
| Golang.FieldTypeFlag | code/src/golang.ts:95-97 | the field type is a pointer exactly when the property is nullable, followed by the serialized type |
| Golang.FieldTagFlags | code/src/golang.ts:97-99 | the json key carries `,omitempty` exactly when the field is optional, and the extra tags follow after one space exactly when there are any |
| Golang.GoTypeRoundTrip | code/src/golang.ts:125-128 | `[]` and `map[string]` prefixes read back as the array and map nesting, in order, followed by the innermost type |
| Golang.EnumConstants | code/src/golang.ts:141 | one constant `Name_value Name = "value"` per value, in declared order |
| Golang.EnumTypeBlock | code/src/golang.ts:137-142 | the constant block, with its indentation removed, is the constants separated by blank lines |
| Golang.StringifyImports | code/src/golang.ts:147-152 | the empty text exactly for an empty set; otherwise an `import ( … )` block |
| Golang.TimeImport | code/src/golang.ts:147-152 | the import block of a schema that uses `time` |
| Golang.SchemaImports | code/src/golang.ts:147-152 | the import block of every parsed schema is empty or imports `time` alone |
| Golang.OwnContentIsType | code/src/golang.ts:155-161 | every declaration starts with `type ` |
| Golang.FileContentLayout | code/src/golang.ts:154-173 | the file is the package clause, the imports and a blank line when there are any, the declaration, and one newline |
| Golang.Routes | code/src/golang.ts:195-201 | one route per request, in order, with name and method capitalized |
| Golang.RouteMethods | code/src/golang.ts:199 | the capitalized methods are `Get`, `Post`, `Put` and `Delete` |
| Golang.NewlinesToSpaces | code/src/golang.ts:75 | the summary keeps its length and holds no newline |
| Golang.EndpointConstants | code/src/golang.ts:39-44 | one endpoint constant per route, in order |
| Golang.RouteEntries | code/src/golang.ts:55-64 | one route-list entry per route, in order |
| Golang.RouterMethods | code/src/golang.ts:73-78 | one interface method per route, in order |
| Golang.KeepListMembers | code/src/golang.ts:183-184 | a name is kept exactly when it is a schema name, an ignored file, or `routers.go` with routes enabled |
| Golang.GoFileContents | code/src/golang.ts:189-191 | each schema's file content is its `fileContent` |
| Golang.OutputFiles | code/src/golang.ts:183-202 | after `generate` an entry exists exactly when it was kept, is a schema's `.go` file, or is the route file |
| Golang.OutputSchemaFile | code/src/golang.ts:189-191 | a schema's `.go` file holds its content, the last one for a repeated name, unless the route file overwrote it |
| Golang.WriteSchemas | code/src/golang.ts:189-191 | the loop writes each schema's content under its `.go` name, in order |
| Golang.Generate | code/src/golang.ts:175-204 | the caller's list gets the index request in front exactly when routes are enabled; the directory becomes the reconciled output |
| TypeScript.PlainType | code/src/typescript.ts:39-44 | exactly the three numeric kinds are `number`; exactly string, number and boolean keep their own names |
| TypeScript.EnumMembers | code/src/typescript.ts:97-99 | one member `value = 'value',` per value, in declared order |
| TypeScript.ExtensionPrefixIsJoin | code/src/typescript.ts:23 | the prefix is the extensions joined by ` & `, followed by one more ` & `, and empty without extensions |
| TypeScript.Fields | code/src/typescript.ts:25-30 | one field per property, in order |
| TypeScript.FieldParts | code/src/typescript.ts:27-28 | a field is its name, `?` exactly when it is optional, and its type |
| TypeScript.StructWithoutProperties | code/src/typescript.ts:33-35 | without properties: the single extension's name, otherwise `{}` |
| TypeScript.IntersectionLayout | code/src/typescript.ts:22-32 | with properties: the intersection prefix, then an object type in braces |
| TypeScript.TypeRoundTrip | code/src/typescript.ts:50-53 | `Array<…>` and `{ [key: string]: … }` read back as the array and map nesting, in order, and the innermost type |
| TypeScript.SpecialEntryShape | code/src/typescript.ts:74-83 | a reference has a decode entry exactly when it is not an enumeration and is an extension or a field; an extension spreads `parseE(json)` |
| TypeScript.OptionalEntryShape | code/src/typescript.ts:78-82 | an optional field is decoded only when present and is `undefined` otherwise |
| TypeScript.NonEmpty | code/src/typescript.ts:84 | `filter(Boolean)` keeps only non-empty texts and never adds any |
| TypeScript.NonEmptyAppend | code/src/typescript.ts:84 | filtering a concatenation is concatenating the filtered parts |
| TypeScript.NonEmptyNone | code/src/typescript.ts:84 | nothing is left exactly when every text is empty |
| TypeScript.SpecialHandling | code/src/typescript.ts:72-84 | no more entries than references |
| TypeScript.SpecialHandlingEmptyIff | code/src/typescript.ts:74-85 | there is no entry exactly when no reference needs conversion |
| TypeScript.SpecialHandlingAppend | code/src/typescript.ts:74-84 | the entries follow the references' order |
| TypeScript.ExtensionsFirstCorrect | code/src/typescript.ts:73 | the reordering is a permutation, puts every extension before every other reference, keeps each group's order, and is idempotent |
| TypeScript.ParserIdentityIff | code/src/typescript.ts:75-87 | the decode function is the identity exactly when every reference names an enumeration or is a non-extension outside any field |
| TypeScript.ParserCopiesInput | code/src/typescript.ts:88-94 | a decode function that is not the identity starts by copying its input with `...json` |
| TypeScript.SpreadsFirst | code/src/typescript.ts:72-84 | after the reordering, the extensions' spreads come before every field entry |
| TypeScript.Parser | code/src/typescript.ts:70-95 | `parser` reorders the accumulator in place, extensions first, and returns the decode function of the reordered list |
| TypeScript.AnyNamedIff | code/src/typescript.ts:113 | `some` finds a reference by name exactly when one exists |
| TypeScript.AnyInMapIff | code/src/typescript.ts:114 | `some` finds a map-nested reference exactly when one exists |
| TypeScript.GetRuntimeDeps | code/src/typescript.ts:111-117 | the pushes yield the runtime helper list |
| TypeScript.RuntimeDepsUsed | code/src/typescript.ts:111-117 | `DateWithoutTime` exactly when some reference has that name, `mapValues` exactly when some reference is map-nested, `identity` and `Identity` exactly for the identity decode function |
| TypeScript.RuntimeDepsOrder | code/src/typescript.ts:111-117 | the helpers are a subsequence of the fixed order `DateWithoutTime`, `mapValues`, `identity`, `Identity` |
| TypeScript.DepsCorrect | code/src/typescript.ts:119-124 | each referenced schema once, the date types never, in the order of first reference |
| TypeScript.GetDeps | code/src/typescript.ts:119-124 | the set built and pruned in a loop is the schema import list |
| TypeScript.ImportLines | code/src/typescript.ts:107-108 | one import line per dependency, in order, flagged as an enumeration when it is one |
| TypeScript.ImportedList | code/src/typescript.ts:105-106 | an import names the decode function exactly for a schema that is not an enumeration |
| TypeScript.DecodeCallsImported | code/src/typescript.ts:60-124 | every schema a decode entry converts is imported with its decode function, exactly when it is not a date type; a date's converter is `parseX`, which nothing imports, exactly when the date is nested |
| TypeScript.NestedDateNotImported | code/src/typescript.ts:60-137 | a required field holding an array of dates is decoded with `json.d.map(parseDate)`, so the decode function is not the identity, yet the module imports nothing |
| TypeScript.NoRefsNoImports | code/src/typescript.ts:137 | an enumeration module without references imports nothing |
| TypeScript.EnumFileText | code/src/typescript.ts:126-145 | the module of an enumeration without references is its declaration and a newline |
| TypeScript.FileTextLayout | code/src/typescript.ts:126-145 | the module of a schema that is not an enumeration is its import block and a blank line when there are imports, then its type declaration, a blank line, its decode function and a newline |
| TypeScript.RenderSchema | code/src/typescript.ts:126-145 | `fileContent` reorders the accumulator of a schema that is not an enumeration, and renders the module from the reordered list |
| TypeScript.IndexLines | code/src/typescript.ts:12-18 | one index entry per schema, in order |
| TypeScript.IndexLineKind | code/src/typescript.ts:13-16 | an index entry exports a value for an enumeration; otherwise it exports the type and then the decode function |
| TypeScript.EnumNames | code/src/typescript.ts:153 | the enumeration names are exactly the names of the schemas whose spec is an enumeration |
| TypeScript.TsFileContents | code/src/typescript.ts:155-157 | each module holds the text rendered from its schema's reordered accumulator |
| TypeScript.OutputFiles | code/src/typescript.ts:148-159 | after `generate` an entry exists exactly when it is a bare schema name that existed, a schema's `.ts` file, or the index |
| TypeScript.OutputSchemaFile | code/src/typescript.ts:155-157 | a schema's module holds its content, the last one for a repeated name, unless the index overwrote it |
| TypeScript.WriteModule | code/src/typescript.ts:156 | one step renders the schema's module, reorders its accumulator, and writes the module |
| TypeScript.WriteModules | code/src/typescript.ts:155-157 | the loop writes every module in order and leaves every accumulator reordered |
| TypeScript.Generate | code/src/typescript.ts:147-160 | the directory becomes the reconciled output with every module and the index; every accumulator ends reordered |
| Text.StripIndentOfIndent | code/src/golang.ts:9 | the indentation rewrite loses nothing: removing the inserted padding gives the text back |
| Text.IndentWithoutNewlines | code/src/golang.ts:9 | a text without newlines is not changed by indentation |
| Text.TrimPadded | code/src/golang.ts:166-170 | `trim` of a text padded with white space gives the text back |
| Text.Compare | code/src/generate.ts:155 | the comparison is -1, 0 or 1 and agrees with the lexicographic order |
| Text.AddAllFacts | code/src/typescript.ts:120 | adding to a `Set` is a union that keeps the insertion order and holds no duplicate |
| Text.DistinctFacts | code/src/typescript.ts:120-123 | `[...new Set(xs)]` holds every element once, in first-occurrence order |
| Text.WithoutMembers | code/src/typescript.ts:121-122 | deleting from the set leaves exactly the elements not deleted |
| Text.WithoutKeepsOrder | code/src/typescript.ts:121-122 | deleting keeps the order and adds no duplicate |
| Files.Kept | code/src/golang.ts:185-187 | an entry stays exactly when it existed and is on the keep-list, with its content unchanged |
| Files.WriteAllKeys | code/src/golang.ts:189-191 | after the writes the entries are the old ones and the written names |
| Files.WriteAllContent | code/src/golang.ts:189-191 | a written name holds the content of its last write |
| Files.Directory.Prune | code/src/golang.ts:185-187 | listing and deleting leaves exactly the kept entries |
| Files.Directory.Write | code/src/golang.ts:190 | a write creates or replaces one entry |

## Left out

- Loading and validating the document (`SwaggerParser`) is not modelled. The resolver and the request pipeline take the parsed definitions and path items as values, in key order.
- `ensureDir` is not modelled. The directory reads, deletions and writes are modelled as updates of a map from names to contents, so path joining and filesystem errors are not modelled either.
- The `Comments` helpers are not part of this model. Their text is taken to be empty.
- The debug timing and logging, the command line of `run.ts`, and the title and description passed to the comment helpers are not modelled.
- The unsupported-node exit (`process.exit(1)`) is modelled as the `Unsupported` failure of the schema being resolved, not as the end of the process.
- Resolver.ResolveNode: an integer `format` that is not a plain kind's name fails with `UnknownIntegerFormat`. The source stores such a format in the IR, and the emitters later throw on it.
- `localeCompare` is modelled as the plain character-code order reduced to -1, 0 or 1. Locale collation is not modelled.
- Requests.SortRequests: the engine's sort is modelled as a stable insertion sort. The contract states sortedness and permutation. The relative order of requests with equal category and name is not stated.
- TypeScript.Parser: the comparator `a => a.isExtension ? -1 : 1` looks only at its first argument, so the order the engine produces is not defined. The model uses the intended order instead: a stable partition with the extensions first.
- TypeScript.ExtensionsFirst: the same idealisation.
- Golang.Capitalize: `toUpperCase` is modelled on the ASCII letters only. Other characters are left unchanged.
- A path-item entry other than the four HTTP methods is not modelled. Operation names are taken as present strings, and `x-permissions` values as name lists.
- The route file is modelled down to its structure: one endpoint constant, route entry and interface method per request, in order. The whitespace of the fixed template text is copied but no property is stated about it.
- TypeScript.Generate and TypeScript.WriteModules require every schema to have its own accumulator. `parseSchema` always creates a fresh one, and `Resolver.ParseSchemas` proves they are distinct.
- Golang.OutputSchemaFile: the case of a schema named `routers` whose file the route file overwrites is excluded by its `requires`.
- TypeScript.OutputSchemaFile: the same for a schema named `index`.
- The enumeration type of the Go emitter is rendered from the values as a comma-joined list where a template embeds it. The type errors the source marks as broken are not modelled further.
