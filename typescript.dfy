/**
 * The TypeScript emitter: serializes the IR into TypeScript types, builds one decode
 * function per schema from its cross-references, chooses the runtime and schema imports,
 * writes one module per schema and an index, and reconciles the models directory.
 * The comment helpers the emitter calls contribute nothing to the text in this model.
 */
module TypeScript {
  import opened Wrappers
  import opened Types
  import Text
  import Files

  /** The indentation of every nested line. */
  const Indent := "    "

  /** The TypeScript type of a plain kind: every numeric kind is `number`, and exactly the
      string, number and boolean kinds keep their own name. */
  function PlainType(k: PlainKind): (t: string)
    ensures t == "number" <==> k == Number || k == Int64 || k == Int32
    ensures t == PlainName(k) <==> k == Str || k == Number || k == Boolean
  {
    match k
    case DateTime => "Date"
    case Date => "DateWithoutTime"
    case Str => "string"
    case Number => "number"
    case Int64 => "number"
    case Int32 => "number"
    case Boolean => "boolean"
  }

  const ArrayOpen := "Array<"
  const ArrayClose := ">"
  const MapOpen := "{ [key: string]: "
  const MapClose := " }"

  /** `array(type)`. */
  function ArrayType(t: string): string
  {
    ArrayOpen + t + ArrayClose
  }

  /** `map(type)`: an index signature over string keys. */
  function MapType(t: string): string
  {
    MapOpen + t + MapClose
  }

  /** One member of an enumeration: `value = 'value',`. */
  function EnumMember(value: string): string
  {
    value + " = '" + value + "',"
  }

  function EnumMembers(values: seq<string>): (r: seq<string>)
    ensures |r| == |values| && forall i :: 0 <= i < |values| ==> r[i] == EnumMember(values[i])
  {
    if values == [] then [] else [EnumMember(values[0])] + EnumMembers(values[1..])
  }

  /** `enumValues(values)`: the enumeration body, one member per line in declared order. */
  function EnumValues(values: seq<string>): string
  {
    "{\n" + Indent + Text.Join(EnumMembers(values), "\n" + Indent) + "\n}"
  }

  /** `serializePropSpec(spec)`. */
  function Serialize(spec: PropSpec): string
    decreases spec, 1
  {
    match spec
    case Plain(k) => PlainType(k)
    case Ref(name) => name
    case Enum(values) => EnumValues(values)
    case Array(element) => ArrayType(Serialize(element))
    case Map(valueSpec) => MapType(Serialize(valueSpec))
    case Object(properties, extensions) => StringifyPropertiesType(properties, extensions)
  }

  /** Every extension followed by ` & `, in order. */
  function ExtensionPrefix(extensions: seq<string>): string
  {
    if extensions == [] then "" else extensions[0] + " & " + ExtensionPrefix(extensions[1..])
  }

  /** The intersection prefix is the extensions joined by ` & `, with one more ` & ` before
      the object type, and nothing without extensions. */
  lemma {:induction false} ExtensionPrefixIsJoin(extensions: seq<string>)
    ensures extensions == [] ==> ExtensionPrefix(extensions) == ""
    ensures extensions != [] ==> ExtensionPrefix(extensions) == Text.Join(extensions, " & ") + " & "
  {
    if |extensions| > 1 {
      ExtensionPrefixIsJoin(extensions[1..]);
    }
  }

  /** `stringifyPropertiesType(properties, extensions)`: the extensions intersected with an
      object type listing one field per line; without own properties, the one extension's
      name, or `{}`. */
  function StringifyPropertiesType(properties: seq<Prop>, extensions: seq<string>): string
    decreases Object(properties, extensions), 0
  {
    if |properties| > 0 then
      ExtensionPrefix(extensions) + "{\n" + Indent + Text.IndentNewLines(Text.Join(Fields(properties), "\n"), Indent) + "\n}"
    else if |extensions| == 1 then extensions[0]
    else "{}"
  }

  function Fields(properties: seq<Prop>): (r: seq<string>)
    decreases properties
    ensures |r| == |properties| && forall i :: 0 <= i < |properties| ==> r[i] == Field(properties[i])
  {
    if properties == [] then [] else [Field(properties[0])] + Fields(properties[1..])
  }

  /** One field: its name, `?` when it is optional, and its type. */
  function Field(p: Prop): string
    decreases p
  {
    p.name + (if p.required then "" else "?") + ": " + Serialize(p.typ) + ";"
  }

  /** A field reads back as its name, an optional mark exactly when the field is not
      required, and its serialized type. */
  lemma FieldParts(p: Prop)
    ensures var f, k := Field(p), |p.name| + if p.required then 0 else 1;
      && |f| >= k + 3 && f[..|p.name|] == p.name
      && (f[|p.name|] == '?' <==> !p.required)
      && f[k..] == ": " + Serialize(p.typ) + ";"
  {
    var mark := if p.required then "" else "?";
    var f := Field(p);
    assert f == p.name + mark + (": " + Serialize(p.typ) + ";");
  }

  /** Without own properties, a single extension is the type itself; two or more
      extensions are dropped. */
  lemma StructWithoutProperties(extensions: seq<string>)
    ensures |extensions| == 1 ==> StringifyPropertiesType([], extensions) == extensions[0]
    ensures |extensions| != 1 ==> StringifyPropertiesType([], extensions) == "{}"
  {
  }

  /** With own properties, the type starts with the extensions' intersection prefix and
      ends with the closing brace of the object type. */
  lemma IntersectionLayout(properties: seq<Prop>, extensions: seq<string>)
    requires properties != []
    ensures var t, prefix := StringifyPropertiesType(properties, extensions), ExtensionPrefix(extensions);
      |t| >= |prefix| + 4 && t[..|prefix|] == prefix && t[|prefix|..|prefix| + 2] == "{\n" && t[|t| - 1] == '}'
  {
    var prefix := ExtensionPrefix(extensions);
    var body := Text.IndentNewLines(Text.Join(Fields(properties), "\n"), Indent);
    var t := StringifyPropertiesType(properties, extensions);
    assert t == prefix + ("{\n" + Indent + body + "\n}");
  }

  /** Reads a TypeScript type back as its container wrappers and the innermost type. */
  function ParseType(t: string): (r: (seq<Nesting>, string))
    decreases |t|
  {
    if Text.HasPrefix(t, ArrayOpen) && Text.HasSuffix(t, ArrayClose) && |t| >= |ArrayOpen| + |ArrayClose| then
      var (nest, leaf) := ParseType(t[|ArrayOpen|..|t| - |ArrayClose|]);
      ([InArray] + nest, leaf)
    else if Text.HasPrefix(t, MapOpen) && Text.HasSuffix(t, MapClose) && |t| >= |MapOpen| + |MapClose| then
      var (nest, leaf) := ParseType(t[|MapOpen|..|t| - |MapClose|]);
      ([InMap] + nest, leaf)
    else ([], t)
  }

  /** Unwrapping one container gives back the wrapped type. */
  lemma Unwrap(open: string, inner: string, close: string)
    ensures var t := open + inner + close;
      && Text.HasPrefix(t, open) && Text.HasSuffix(t, close) && |t| >= |open| + |close|
      && t[|open|..|t| - |close|] == inner
  {
    var t := open + inner + close;
    assert t[..|open|] == open;
    assert t[|t| - |close|..] == close;
  }

  /** The TypeScript type of nested arrays and maps can be read back: the wrappers give the
      containers in order and the rest is the innermost type, provided that type does not
      itself start like a container. */
  lemma {:induction false} TypeRoundTrip(spec: PropSpec)
    requires var leaf := Serialize(Leaf(spec)); !Text.HasPrefix(leaf, ArrayOpen) && !Text.HasPrefix(leaf, MapOpen)
    ensures ParseType(Serialize(spec)) == (Containers(spec), Serialize(Leaf(spec)))
  {
    match spec
    case Array(element) =>
      Unwrap(ArrayOpen, Serialize(element), ArrayClose);
      TypeRoundTrip(element);
    case Map(valueSpec) =>
      var t := Serialize(spec);
      Unwrap(MapOpen, Serialize(valueSpec), MapClose);
      assert !Text.HasPrefix(t, ArrayOpen) by { assert t[0] == '{'; }
      TypeRoundTrip(valueSpec);
    case _ =>
  }

  /** The converter a decode expression applies: a constructor for a date at the field
      itself, the schema's decode function otherwise, including for nested dates. */
  function Converter(name: string, nesting: Option<Nesting>): string
  {
    if nesting.None? && (name == "Date" || name == "DateWithoutTime") then "new " + name else "parse" + name
  }

  /** `getParsing(fromJson, name, nesting)`: the expression that decodes one field. */
  function GetParsing(fromJson: string, name: string, nesting: Option<Nesting>): string
  {
    match nesting
    case None =>
      (if name == "Date" || name == "DateWithoutTime" then "new " else "parse") + name + "(" + fromJson + ")"
    case Some(InMap) => "mapValues(" + fromJson + ", parse" + name + ")"
    case Some(InArray) => fromJson + ".map(parse" + name + ")"
  }

  /** A field value is passed to the converter, every value of a map goes through
      `mapValues`, and every element of an array through `map`. */
  lemma GetParsingApplies(fromJson: string, name: string, nesting: Option<Nesting>)
    ensures var c := Converter(name, nesting);
      GetParsing(fromJson, name, nesting) == match nesting
        case None => c + "(" + fromJson + ")"
        case Some(InMap) => "mapValues(" + fromJson + ", " + c + ")"
        case Some(InArray) => fromJson + ".map(" + c + ")"
  {
    var c := Converter(name, nesting);
    match nesting
    case None =>
    case Some(InMap) =>
      var head := "mapValues(" + fromJson;
      assert ", " + "parse" == ", parse";
      Text.Regroup(head, ", ", "parse", name, ")");
    case Some(InArray) =>
      assert ".map(" + "parse" == ".map(parse";
      Text.Regroup(fromJson, ".map(", "parse", name, ")");
  }

  /** A reference the decode function must convert: one that does not name an
      enumeration and is an extension or sits in a field. */
  predicate NeedsConversion(r: TSRef, enums: seq<string>)
  {
    r.name !in enums && (r.isExtension || r.attributeInfo.Some?)
  }

  /** The decode entry of one reference, or "" when it needs none. */
  function SpecialEntry(r: TSRef, enums: seq<string>): string
  {
    if r.name in enums then ""
    else if r.isExtension then "...parse" + r.name + "(json),"
    else if r.attributeInfo.None? then ""
    else
      var a := r.attributeInfo.value;
      var fromJson := "json." + a.name;
      a.name + ": " + (if a.required then "" else fromJson + " ? ") + GetParsing(fromJson, r.name, r.nesting)
      + (if a.required then "," else " : undefined,")
  }

  /** A reference has an entry exactly when it needs conversion; an extension spreads its
      own decoded fields. */
  lemma SpecialEntryShape(r: TSRef, enums: seq<string>)
    ensures SpecialEntry(r, enums) != "" <==> NeedsConversion(r, enums)
    ensures NeedsConversion(r, enums) && r.isExtension ==> SpecialEntry(r, enums) == "...parse" + r.name + "(json),"
  {
    if NeedsConversion(r, enums) && !r.isExtension {
      var a := r.attributeInfo.value;
      var e := SpecialEntry(r, enums);
      var tail := if a.required then "," else " : undefined,";
      Text.Affixes(e[..|e| - |tail|], tail);
    }
  }

  /** An optional field is decoded only when it is present, and is undefined otherwise. */
  lemma OptionalEntryShape(r: TSRef, enums: seq<string>)
    requires NeedsConversion(r, enums) && !r.isExtension && !r.attributeInfo.value.required
    ensures var a, e := r.attributeInfo.value, SpecialEntry(r, enums);
      Text.HasPrefix(e, a.name + ": " + ("json." + a.name + " ? ")) && Text.HasSuffix(e, " : undefined,")
  {
    var a := r.attributeInfo.value;
    var head := a.name + ": " + ("json." + a.name + " ? ");
    var parsing := GetParsing("json." + a.name, r.name, r.nesting);
    assert SpecialEntry(r, enums) == head + parsing + " : undefined,";
    Text.Affixes(head + parsing, " : undefined,");
    Text.Affixes(head, parsing);
    assert (head + parsing + " : undefined,")[..|head|] == (head + parsing)[..|head|];
  }

  /** `filter(Boolean)` on strings: the non-empty ones, in order. */
  function NonEmpty(parts: seq<string>): (r: seq<string>)
    ensures |r| <= |parts| && forall i :: 0 <= i < |r| ==> r[i] != ""
  {
    if parts == [] then [] else (if parts[0] != "" then [parts[0]] else []) + NonEmpty(parts[1..])
  }

  /** Filtering two runs of strings is filtering each. */
  lemma {:induction false} NonEmptyAppend(a: seq<string>, b: seq<string>)
    ensures NonEmpty(a + b) == NonEmpty(a) + NonEmpty(b)
  {
    if a == [] {
      assert a + b == b;
    } else {
      assert (a + b)[0] == a[0] && (a + b)[1..] == a[1..] + b;
      NonEmptyAppend(a[1..], b);
    }
  }

  /** Nothing is left exactly when every string is empty. */
  lemma {:induction false} NonEmptyNone(parts: seq<string>)
    ensures NonEmpty(parts) == [] <==> forall i :: 0 <= i < |parts| ==> parts[i] == ""
  {
    if parts != [] {
      NonEmptyNone(parts[1..]);
      assert forall i :: 1 <= i < |parts| ==> parts[i] == parts[1..][i - 1];
    }
  }

  /** The decode entry of each reference, "" included. */
  function Entries(refs: seq<TSRef>, enums: seq<string>): (r: seq<string>)
    ensures |r| == |refs| && forall i :: 0 <= i < |refs| ==> r[i] == SpecialEntry(refs[i], enums)
  {
    seq(|refs|, i requires 0 <= i < |refs| => SpecialEntry(refs[i], enums))
  }

  /** The non-empty decode entries of the references, in order. */
  function SpecialHandling(refs: seq<TSRef>, enums: seq<string>): (r: seq<string>)
    ensures |r| <= |refs|
  {
    NonEmpty(Entries(refs, enums))
  }

  /** There is no decode entry exactly when no reference needs conversion. */
  lemma SpecialHandlingEmptyIff(refs: seq<TSRef>, enums: seq<string>)
    ensures SpecialHandling(refs, enums) == [] <==> forall i :: 0 <= i < |refs| ==> !NeedsConversion(refs[i], enums)
  {
    var entries := Entries(refs, enums);
    NonEmptyNone(entries);
    forall i | 0 <= i < |refs| ensures entries[i] == "" <==> !NeedsConversion(refs[i], enums) {
      SpecialEntryShape(refs[i], enums);
    }
  }

  /** The entries of two runs of references are those of the first, then those of the
      second. */
  lemma SpecialHandlingAppend(a: seq<TSRef>, b: seq<TSRef>, enums: seq<string>)
    ensures SpecialHandling(a + b, enums) == SpecialHandling(a, enums) + SpecialHandling(b, enums)
  {
    assert Entries(a + b, enums) == Entries(a, enums) + Entries(b, enums);
    NonEmptyAppend(Entries(a, enums), Entries(b, enums));
  }

  /** The references whose `isExtension` equals `extension`, in order. */
  function Filter(refs: seq<TSRef>, extension: bool): (r: seq<TSRef>)
    ensures forall i :: 0 <= i < |r| ==> r[i].isExtension == extension
  {
    if refs == [] then []
    else
      var last := refs[|refs| - 1];
      Filter(refs[..|refs| - 1], extension) + (if last.isExtension == extension then [last] else [])
  }

  lemma {:induction false} FilterAppend(a: seq<TSRef>, b: seq<TSRef>, extension: bool)
    ensures Filter(a + b, extension) == Filter(a, extension) + Filter(b, extension)
  {
    if b == [] {
      assert a + b == a;
    } else {
      var ab := a + b;
      assert ab[..|ab| - 1] == a + b[..|b| - 1] && ab[|ab| - 1] == b[|b| - 1];
      FilterAppend(a, b[..|b| - 1], extension);
    }
  }

  /** Filtering keeps exactly the matching references, and only those. */
  lemma {:induction false} FilterMatching(refs: seq<TSRef>, extension: bool)
    requires forall i :: 0 <= i < |refs| ==> refs[i].isExtension == extension
    ensures Filter(refs, extension) == refs && Filter(refs, !extension) == []
  {
    if refs != [] {
      FilterMatching(refs[..|refs| - 1], extension);
      assert refs == refs[..|refs| - 1] + [refs[|refs| - 1]];
    }
  }

  /** Regrouping four runs of references keeps their multiset. */
  lemma MultisetRegroup(a: seq<TSRef>, b: seq<TSRef>, c: seq<TSRef>, d: seq<TSRef>)
    ensures multiset(a + b + (c + d)) == multiset(a + c) + multiset(b + d)
  {
  }

  /** Filtering a run with one more reference at its end. */
  lemma FilterSnoc(init: seq<TSRef>, last: TSRef, extension: bool)
    ensures Filter(init + [last], extension) == Filter(init, extension) + (if last.isExtension == extension then [last] else [])
  {
    var refs := init + [last];
    assert refs[..|refs| - 1] == init;
  }

  /** The partition a filter and its complement make loses and invents nothing. */
  lemma {:induction false} FilterPartition(refs: seq<TSRef>)
    ensures multiset(Filter(refs, true) + Filter(refs, false)) == multiset(refs)
  {
    if refs != [] {
      var init, last := refs[..|refs| - 1], refs[|refs| - 1];
      assert refs == init + [last];
      FilterPartition(init);
      FilterSnoc(init, last, true);
      FilterSnoc(init, last, false);
      var one: seq<TSRef> := if last.isExtension then [last] else [];
      var rest: seq<TSRef> := if last.isExtension then [] else [last];
      MultisetRegroup(Filter(init, true), one, Filter(init, false), rest);
      assert multiset(one + rest) == multiset([last]);
    }
  }

  /** The order `parser` intends for the accumulator: extensions first, each group in its
      original order. */
  function ExtensionsFirst(refs: seq<TSRef>): seq<TSRef>
  {
    Filter(refs, true) + Filter(refs, false)
  }

  /** The reordering is a permutation that puts every extension before every other
      reference and keeps the order within each group; applying it twice changes nothing. */
  lemma ExtensionsFirstCorrect(refs: seq<TSRef>)
    ensures var r := ExtensionsFirst(refs);
      && multiset(r) == multiset(refs)
      && (forall i, j :: 0 <= i < j < |r| && r[j].isExtension ==> r[i].isExtension)
      && Filter(r, true) == Filter(refs, true) && Filter(r, false) == Filter(refs, false)
      && ExtensionsFirst(r) == r
  {
    var ext, other := Filter(refs, true), Filter(refs, false);
    var r := ext + other;
    FilterPartition(refs);
    FilterAppend(ext, other, true);
    FilterAppend(ext, other, false);
    FilterMatching(ext, true);
    FilterMatching(other, false);
    forall i, j | 0 <= i < j < |r| && r[j].isExtension ensures r[i].isExtension {
      assert j < |ext|;
    }
  }

  /** `parser` on an accumulator already reordered: whether the decode function is the
      identity, and its text. */
  function ParserText(name: string, refs: seq<TSRef>, enums: seq<string>): (bool, string)
  {
    var special := SpecialHandling(refs, enums);
    var exportConst := "export const parse" + name + " =";
    if special == [] then (true, exportConst + " identity as Identity<" + name + ">;")
    else (false, exportConst + " (json: any): " + name + " => ({\n" + Indent + "...json,\n" + Indent
      + Text.Join(special, "\n" + Indent) + "\n});")
  }

  /** The decode function is the identity exactly when every reference names an
      enumeration or is a plain reference outside any field. */
  lemma ParserIdentityIff(name: string, refs: seq<TSRef>, enums: seq<string>)
    ensures ParserText(name, refs, enums).0 <==>
      forall i :: 0 <= i < |refs| ==> refs[i].name in enums || (!refs[i].isExtension && refs[i].attributeInfo.None?)
  {
    SpecialHandlingEmptyIff(refs, enums);
  }

  /** A decode function that is not the identity copies its input before its entries. */
  lemma ParserCopiesInput(name: string, refs: seq<TSRef>, enums: seq<string>)
    requires !ParserText(name, refs, enums).0
    ensures Text.HasPrefix(ParserText(name, refs, enums).1,
      "export const parse" + name + " =" + " (json: any): " + name + " => ({\n" + Indent + "...json,")
  {
    var special := SpecialHandling(refs, enums);
    var head := "export const parse" + name + " =" + " (json: any): " + name + " => ({\n" + Indent + "...json,";
    var rest := "\n" + Indent + Text.Join(special, "\n" + Indent) + "\n});";
    assert "...json,\n" == "...json," + "\n";
    assert ParserText(name, refs, enums).1 == head + rest;
    Text.Affixes(head, rest);
  }

  /** With the accumulator reordered, the extensions' spreads come before every field
      entry. */
  lemma SpreadsFirst(refs: seq<TSRef>, enums: seq<string>)
    ensures SpecialHandling(ExtensionsFirst(refs), enums)
         == SpecialHandling(Filter(refs, true), enums) + SpecialHandling(Filter(refs, false), enums)
  {
    SpecialHandlingAppend(Filter(refs, true), Filter(refs, false), enums);
  }

  /** `parser(name, meta, allEnumNames)`: reorders the accumulator in place, extensions
      first, then builds the decode function from it. */
  method Parser(name: string, meta: Meta, enums: seq<string>) returns (isIdentity: bool, text: string)
    modifies meta
    ensures meta.tsRefs == ExtensionsFirst(old(meta.tsRefs)) && meta.goRefs == old(meta.goRefs)
    ensures (isIdentity, text) == ParserText(name, meta.tsRefs, enums)
  {
    var refs := meta.tsRefs;
    var extensions, others := [], [];
    var i := 0;
    while i < |refs|
      invariant 0 <= i <= |refs|
      invariant extensions == Filter(refs[..i], true) && others == Filter(refs[..i], false)
    {
      assert refs[..i + 1][..i] == refs[..i];
      if refs[i].isExtension {
        extensions := extensions + [refs[i]];
      } else {
        others := others + [refs[i]];
      }
      i := i + 1;
    }
    assert refs[..i] == refs;
    meta.tsRefs := extensions + others;
    var special := SpecialHandling(meta.tsRefs, enums);
    var exportConst := "export const parse" + name + " =";
    if |special| == 0 {
      isIdentity, text := true, exportConst + " identity as Identity<" + name + ">;";
    } else {
      isIdentity := false;
      text := exportConst + " (json: any): " + name + " => ({\n" + Indent + "...json,\n" + Indent
        + Text.Join(special, "\n" + Indent) + "\n});";
    }
  }

  /** `tsRefs.some(...)` for a reference to `name`. */
  predicate AnyNamed(refs: seq<TSRef>, name: string)
  {
    refs != [] && (refs[0].name == name || AnyNamed(refs[1..], name))
  }

  /** `tsRefs.some(...)` for a reference inside a map. */
  predicate AnyInMap(refs: seq<TSRef>)
  {
    refs != [] && (refs[0].nesting == Some(InMap) || AnyInMap(refs[1..]))
  }

  lemma {:induction false} AnyNamedIff(refs: seq<TSRef>, name: string)
    ensures AnyNamed(refs, name) <==> exists i :: 0 <= i < |refs| && refs[i].name == name
  {
    if refs != [] {
      var tail := refs[1..];
      AnyNamedIff(tail, name);
      if exists i :: 0 <= i < |refs| && refs[i].name == name {
        var i :| 0 <= i < |refs| && refs[i].name == name;
        if i > 0 {
          assert tail[i - 1].name == name;
        }
      }
      if exists i :: 0 <= i < |tail| && tail[i].name == name {
        var i :| 0 <= i < |tail| && tail[i].name == name;
        assert refs[i + 1].name == name;
      }
    }
  }

  lemma {:induction false} AnyInMapIff(refs: seq<TSRef>)
    ensures AnyInMap(refs) <==> exists i :: 0 <= i < |refs| && refs[i].nesting == Some(InMap)
  {
    if refs != [] {
      var tail := refs[1..];
      AnyInMapIff(tail);
      if exists i :: 0 <= i < |refs| && refs[i].nesting == Some(InMap) {
        var i :| 0 <= i < |refs| && refs[i].nesting == Some(InMap);
        if i > 0 {
          assert tail[i - 1].nesting == Some(InMap);
        }
      }
      if exists i :: 0 <= i < |tail| && tail[i].nesting == Some(InMap) {
        var i :| 0 <= i < |tail| && tail[i].nesting == Some(InMap);
        assert refs[i + 1].nesting == Some(InMap);
      }
    }
  }

  /** The runtime helpers a module may import, in the order `getRuntimeDeps` pushes them. */
  const RuntimeOrder := ["DateWithoutTime", "mapValues", "identity", "Identity"]

  /** `getRuntimeDeps(meta, isIdentityParser)`: the runtime helpers the module imports. */
  function RuntimeDeps(refs: seq<TSRef>, isIdentity: bool): seq<string>
  {
    (if AnyNamed(refs, "DateWithoutTime") then ["DateWithoutTime"] else [])
    + (if AnyInMap(refs) then ["mapValues"] else [])
    + (if isIdentity then ["identity", "Identity"] else [])
  }

  /** `getRuntimeDeps` pushing onto a local list. */
  method GetRuntimeDeps(refs: seq<TSRef>, isIdentity: bool) returns (result: seq<string>)
    ensures result == RuntimeDeps(refs, isIdentity)
  {
    result := [];
    if AnyNamed(refs, "DateWithoutTime") {
      result := result + ["DateWithoutTime"];
    }
    if AnyInMap(refs) {
      result := result + ["mapValues"];
    }
    if isIdentity {
      result := result + ["identity", "Identity"];
    }
  }

  /** Each helper is imported exactly when it is used. */
  lemma RuntimeDepsUsed(refs: seq<TSRef>, isIdentity: bool)
    ensures var d := RuntimeDeps(refs, isIdentity);
      && ("DateWithoutTime" in d <==> exists i :: 0 <= i < |refs| && refs[i].name == "DateWithoutTime")
      && ("mapValues" in d <==> exists i :: 0 <= i < |refs| && refs[i].nesting == Some(InMap))
      && ("identity" in d <==> isIdentity)
      && ("Identity" in d <==> isIdentity)
  {
    AnyNamedIff(refs, "DateWithoutTime");
    AnyInMapIff(refs);
  }

  /** The helpers always come in the same fixed order. */
  lemma RuntimeDepsOrder(refs: seq<TSRef>, isIdentity: bool)
    ensures Text.IsSubsequence(RuntimeDeps(refs, isIdentity), RuntimeOrder)
  {
    var tail := if isIdentity then ["identity", "Identity"] else [];
    assert Text.IsSubsequence(tail, RuntimeOrder[2..]) by {
      if isIdentity {
        assert RuntimeOrder[2..][1..] == ["Identity"];
      } else {
        assert Text.IsSubsequence([], RuntimeOrder[2..]);
      }
    }
    var middle := (if AnyInMap(refs) then ["mapValues"] else []) + tail;
    assert Text.IsSubsequence(middle, RuntimeOrder[1..]) by {
      if middle != tail {
        assert middle[1..] == tail && RuntimeOrder[1..][1..] == RuntimeOrder[2..];
      } else {
        assert RuntimeOrder[1..][1..] == RuntimeOrder[2..];
        SubsequenceSkip(tail, RuntimeOrder[1..]);
      }
    }
    var d := RuntimeDeps(refs, isIdentity);
    assert d == (if AnyNamed(refs, "DateWithoutTime") then ["DateWithoutTime"] else []) + middle;
    if d != middle {
      assert d[1..] == middle;
    } else {
      SubsequenceSkip(middle, RuntimeOrder);
    }
  }

  /** A subsequence of the tail of `ys` is one of `ys`, when it does not start with the
      head. */
  lemma SubsequenceSkip(xs: seq<string>, ys: seq<string>)
    requires ys != [] && Text.IsSubsequence(xs, ys[1..]) && (xs == [] || xs[0] != ys[0])
    ensures Text.IsSubsequence(xs, ys)
  {
  }

  /** The names of the references, in order. */
  function RefNames(refs: seq<TSRef>): (names: seq<string>)
    ensures |names| == |refs|
  {
    seq(|refs|, i requires 0 <= i < |refs| => refs[i].name)
  }

  /** The names `getDeps` removes: the date types are not schema modules. */
  const DateNames := {"Date", "DateWithoutTime"}

  /** The schema modules a module imports: the distinct names of its references in
      first-occurrence order, without the date types. */
  function Deps(refs: seq<TSRef>): seq<string>
  {
    Text.Without(Text.Distinct(RefNames(refs)), DateNames)
  }

  /** Each referenced schema is imported once, the date types never, in the order of first
      reference. */
  lemma DepsCorrect(refs: seq<TSRef>)
    ensures var d := Deps(refs);
      && Text.NoDuplicates(d)
      && (forall n :: n in d <==> n !in DateNames && exists i :: 0 <= i < |refs| && refs[i].name == n)
      && Text.InFirstOccurrenceOrder(d, RefNames(refs))
  {
    var names := RefNames(refs);
    Text.DistinctFacts(names);
    Text.WithoutMembers(Text.Distinct(names), DateNames);
    Text.WithoutKeepsOrder(Text.Distinct(names), DateNames, names);
    forall n ensures n in names <==> exists i :: 0 <= i < |refs| && refs[i].name == n {
      if n in names {
        var i :| 0 <= i < |names| && names[i] == n;
        assert refs[i].name == n;
      }
      if exists i :: 0 <= i < |refs| && refs[i].name == n {
        var i :| 0 <= i < |refs| && refs[i].name == n;
        assert names[i] == n;
      }
    }
  }

  /** `getDeps(meta)`: collects the names into an insertion-ordered set, then deletes the
      date types. */
  method GetDeps(refs: seq<TSRef>) returns (deps: seq<string>)
    ensures deps == Deps(refs)
  {
    ghost var names := RefNames(refs);
    deps := [];
    var i := 0;
    while i < |refs|
      invariant 0 <= i <= |refs|
      invariant deps == Text.AddAll([], names[..i])
    {
      assert names[..i + 1][..i] == names[..i] && names[i] == refs[i].name;
      deps := Text.Add(deps, refs[i].name);
      i := i + 1;
    }
    assert names[..i] == names;
    deps := Text.Without(deps, DateNames);
  }

  /** `importFrom(imports, source)`. */
  function ImportFrom(imports: string, source: string): string
  {
    "import { " + imports + " } from '" + source + "';"
  }

  /** `stringifyImport(name, isEnum)`: an enumeration imports its name, any other schema
      its type and its decode function. */
  function StringifyImport(name: string, isEnum: bool): string
  {
    ImportFrom(if isEnum then name else name + ", parse" + name, "./" + name)
  }

  function ImportLines(deps: seq<string>, enums: seq<string>): (r: seq<string>)
    ensures |r| == |deps| && forall i :: 0 <= i < |deps| ==> r[i] == StringifyImport(deps[i], deps[i] in enums)
  {
    if deps == [] then [] else [StringifyImport(deps[0], deps[0] in enums)] + ImportLines(deps[1..], enums)
  }

  /** `stringifyImports(refs, allEnumNames)`: one import per line. */
  function StringifyImports(deps: seq<string>, enums: seq<string>): string
  {
    Text.Join(ImportLines(deps, enums), "\n")
  }

  /** The imported list names the decode function exactly for a schema that is not an
      enumeration. */
  lemma ImportedList(name: string, isEnum: bool)
    ensures var line, list := StringifyImport(name, isEnum), if isEnum then name else name + ", parse" + name;
      line[9..9 + |list|] == list && Text.HasSuffix(line, " } from './" + name + "';")
  {
    var list := if isEnum then name else name + ", parse" + name;
    var line := StringifyImport(name, isEnum);
    assert line == "import { " + list + (" } from './" + name + "';");
  }

  /** The converter of a field is a decode function `parseX` exactly when the field is not
      a date type, or is nested in an array or a map. */
  lemma ConverterIsParse(name: string, nesting: Option<Nesting>)
    ensures Converter(name, nesting) == "parse" + name <==> name !in DateNames || nesting.Some?
  {
    if nesting.None? && name in DateNames {
      assert ("new " + name)[0] != ("parse" + name)[0];
    }
  }

  /** A schema in the import list is imported together with its decode function unless it
      is an enumeration. */
  lemma ImportOfDep(deps: seq<string>, enums: seq<string>, name: string)
    requires name in deps && name !in enums
    ensures exists k :: 0 <= k < |deps| && deps[k] == name && ImportLines(deps, enums)[k] == StringifyImport(name, false)
  {
    var k :| 0 <= k < |deps| && deps[k] == name;
    assert ImportLines(deps, enums)[k] == StringifyImport(name, false);
  }

  /** Every schema a decode entry converts is imported together with its decode
      function, and the date types never are. A date at the field itself is built with
      `new`; a date inside an array or a map is passed to `parseDate` or
      `parseDateWithoutTime`, which no import provides. */
  lemma DecodeCallsImported(refs: seq<TSRef>, enums: seq<string>, i: nat)
    requires i < |refs| && NeedsConversion(refs[i], enums)
    ensures var r, d := refs[i], Deps(refs);
      && (r.name in d <==> r.name !in DateNames)
      && (r.name in d ==> exists k :: 0 <= k < |d| && d[k] == r.name && ImportLines(d, enums)[k] == StringifyImport(r.name, false))
      && (!r.isExtension ==> (Converter(r.name, r.nesting) == "parse" + r.name <==> r.name !in DateNames || r.nesting.Some?))
  {
    var r, d := refs[i], Deps(refs);
    DepsCorrect(refs);
    assert r.name in d <==> r.name !in DateNames;
    if r.name in d {
      ImportOfDep(d, enums, r.name);
    }
    ConverterIsParse(r.name, r.nesting);
  }

  /** A module whose references all name date types imports no schema. */
  lemma DatesOnlyNoDeps(refs: seq<TSRef>)
    requires forall i :: 0 <= i < |refs| ==> refs[i].name in DateNames
    ensures Deps(refs) == []
  {
    var names := RefNames(refs);
    Text.DistinctFacts(names);
    forall y | y in Text.Distinct(names) ensures y in DateNames {
      var i :| 0 <= i < |names| && names[i] == y;
    }
    Text.WithoutAll(Text.Distinct(names), DateNames);
  }

  /** A required field `d` holding an array of dates. */
  const DateArrayField := TSRef("Date", Some(AttributeInfo("d", true)), Some(InArray), false)

  /** The decode entry of a required array of dates maps `parseDate` over the field. */
  lemma DateArrayEntry()
    ensures SpecialEntry(DateArrayField, []) == "d: json.d.map(parseDate),"
  {
    var r := DateArrayField;
    assert "json." + "d" == "json.d";
    var parsing := GetParsing("json.d", "Date", Some(InArray));
    assert parsing == "json.d" + ".map(parse" + "Date" + ")" == "json.d.map(parseDate)";
    assert SpecialEntry(r, []) == "d" + ": " + "" + parsing + ",";
  }

  /** A required field holding an array of dates: its entry maps `parseDate` over the
      field, so the decode function is not the identity, yet the module imports nothing. */
  lemma NestedDateNotImported()
    ensures SpecialEntry(DateArrayField, []) == "d: json.d.map(parseDate),"
    ensures !ParserText("S", [DateArrayField], []).0
    ensures ImportBlock([DateArrayField], false, []) == ""
  {
    var r := DateArrayField;
    DateArrayEntry();
    assert [r][1..] == [];
    assert Entries([r], []) == [SpecialEntry(r, [])];
    assert NonEmpty([SpecialEntry(r, [])]) == [SpecialEntry(r, [])];
    assert !AnyNamed([r][1..], "DateWithoutTime") && !AnyInMap([r][1..]);
    assert !AnyNamed([r], "DateWithoutTime");
    assert !AnyInMap([r]);
    assert RuntimeDeps([r], false) == [];
    DatesOnlyNoDeps([r]);
    assert NonEmpty(["", ""]) == [] by {
      assert ["", ""][1..] == [""];
    }
  }

  /** The import block of the runtime helpers, or nothing. */
  function RuntimeImports(deps: seq<string>): string
  {
    if |deps| > 0 then ImportFrom(Text.Join(deps, ", "), "../../runtime") else ""
  }

  /** `fileContent(source, schema, allEnumNames)` given the accumulator as `parser` leaves
      it: the imports, the declaration and the decode function, trimmed, then a newline.
      An enumeration has no decode function. */
  function FileText(name: string, spec: PropSpec, refs: seq<TSRef>, enums: seq<string>): string
  {
    var serialized := Serialize(spec);
    var own := if spec.Enum? then "export enum " + name + " " + serialized else "export type " + name + " = " + serialized + ";";
    var parser := if spec.Enum? then (false, "") else ParserText(name, refs, enums);
    var imports := ImportBlock(refs, parser.0, enums);
    Text.Trim("\n" + imports + "\n\n" + own + "\n\n" + parser.1 + "\n") + "\n"
  }

  /** The import block of a module: the runtime helpers' line, then one line per schema it
      references, leaving out a part that is empty. */
  function ImportBlock(refs: seq<TSRef>, isIdentity: bool, enums: seq<string>): string
  {
    Text.Join(NonEmpty([RuntimeImports(RuntimeDeps(refs, isIdentity)), StringifyImports(Deps(refs), enums)]), "\n")
  }

  /** The module of an enumeration without references imports nothing: it has no decode
      function, so neither the identity helpers nor any schema are imported. */
  lemma NoRefsNoImports(enums: seq<string>)
    ensures ImportBlock([], false, enums) == ""
  {
    assert RuntimeDeps([], false) == [];
    assert Deps([]) == [] by {
      assert Text.Distinct(RefNames([])) == [];
    }
    assert RuntimeImports([]) == "" && StringifyImports([], enums) == "";
    assert NonEmpty(["", ""]) == [] by {
      assert ["", ""][1..] == [""];
    }
  }

  /** The module of an enumeration without references is its declaration and a newline. */
  lemma EnumFileText(name: string, values: seq<string>, enums: seq<string>)
    ensures FileText(name, Enum(values), [], enums) == "export enum " + name + " " + EnumValues(values) + "\n"
  {
    var values' := EnumValues(values);
    var own := "export enum " + name + " " + values';
    assert own[0] == 'e' && own[|own| - 1] == values'[|values'| - 1] == '}';
    NoRefsNoImports(enums);
    TrimmedDeclaration(own);
  }

  /** Trimming the padded text of a module that holds only a declaration keeps the
      declaration. */
  lemma TrimmedDeclaration(own: string)
    requires Text.Framed(own, 'e', '}')
    ensures Text.Trim("\n" + "" + "\n\n" + own + "\n\n" + "" + "\n") == own
  {
    assert "\n" + "" + "\n\n" + own + "\n\n" + "" + "\n" == "\n\n\n" + own + "\n\n\n";
    Text.TrimPadded("\n\n\n", own, "\n\n\n");
  }

  /** Every import statement starts with `import` and ends with a semicolon. */
  lemma ImportFromFramed(imports: string, source: string)
    ensures Text.Framed(ImportFrom(imports, source), 'i', ';')
  {
  }

  /** The import block is empty or a run of import statements. */
  lemma ImportBlockFramed(refs: seq<TSRef>, isIdentity: bool, enums: seq<string>)
    ensures var b := ImportBlock(refs, isIdentity, enums); b == "" || Text.Framed(b, 'i', ';')
  {
    var runtimeDeps := RuntimeDeps(refs, isIdentity);
    var runtime := RuntimeImports(runtimeDeps);
    if runtimeDeps != [] {
      ImportFromFramed(Text.Join(runtimeDeps, ", "), "../../runtime");
    }
    var deps := Deps(refs);
    var schemas := StringifyImports(deps, enums);
    if deps != [] {
      var lines := ImportLines(deps, enums);
      forall k | 0 <= k < |lines| ensures Text.Framed(lines[k], 'i', ';') {
        ImportFromFramed(if deps[k] in enums then deps[k] else deps[k] + ", parse" + deps[k], "./" + deps[k]);
      }
      Text.JoinFramed(lines, "\n", 'i', ';');
    }
    var parts := NonEmpty([runtime, schemas]);
    assert [runtime, schemas][1..] == [schemas] && [schemas][1..] == [];
    assert NonEmpty([schemas]) == (if schemas != "" then [schemas] else []) + NonEmpty([]);
    assert parts == (if runtime != "" then [runtime] else []) + NonEmpty([schemas]);
    if parts != [] {
      Text.JoinFramed(parts, "\n", 'i', ';');
    }
  }

  /** A decode function is one `export` statement. */
  lemma ParserTextFramed(name: string, refs: seq<TSRef>, enums: seq<string>)
    ensures Text.Framed(ParserText(name, refs, enums).1, 'e', ';')
  {
  }

  /** Trimming the padded text of a module without imports keeps its body. */
  lemma TrimmedBody(own: string, parser: string)
    requires Text.Framed(own, 'e', ';') && Text.Framed(parser, 'e', ';')
    ensures Text.Trim("\n\n\n" + own + "\n\n" + parser + "\n") == own + "\n\n" + parser
  {
    var body := own + "\n\n" + parser;
    assert body[0] == own[0];
    assert body[|body| - 1] == parser[|parser| - 1];
    Text.Enclose3("\n\n\n", own, "\n\n", parser, "\n");
    Text.TrimPadded("\n\n\n", body, "\n");
  }

  /** Trimming the padded text of a module with imports keeps the imports and the body. */
  lemma TrimmedImportsAndBody(b: string, own: string, parser: string)
    requires Text.Framed(b, 'i', ';') && Text.Framed(own, 'e', ';') && Text.Framed(parser, 'e', ';')
    ensures Text.Trim("\n" + b + "\n\n" + own + "\n\n" + parser + "\n") == b + "\n\n" + own + "\n\n" + parser
  {
    var core := b + "\n\n" + own + "\n\n" + parser;
    assert core[0] == b[0];
    assert core[|core| - 1] == parser[|parser| - 1];
    Text.Enclose5("\n", b, "\n\n", own, "\n\n", parser, "\n");
    Text.TrimPadded("\n", core, "\n");
  }

  /** Trimming the padded module text keeps the import block, when there is one, the
      declaration and the decode function, with a blank line between each. */
  lemma TrimmedModule(b: string, own: string, parser: string)
    requires b == "" || Text.Framed(b, 'i', ';')
    requires Text.Framed(own, 'e', ';') && Text.Framed(parser, 'e', ';')
    ensures Text.Trim("\n" + b + "\n\n" + own + "\n\n" + parser + "\n") + "\n"
      == (if b == "" then "" else b + "\n\n") + own + "\n\n" + parser + "\n"
  {
    if b == "" {
      assert "\n" + b + "\n\n" == "\n\n\n";
      TrimmedBody(own, parser);
    } else {
      TrimmedImportsAndBody(b, own, parser);
    }
  }

  /** The module of a schema that is not an enumeration is its import block followed by a
      blank line when it has imports, then its type declaration, a blank line, its decode
      function and a newline. */
  lemma FileTextLayout(name: string, spec: PropSpec, refs: seq<TSRef>, enums: seq<string>)
    requires !spec.Enum?
    ensures var p := ParserText(name, refs, enums);
      var b := ImportBlock(refs, p.0, enums);
      FileText(name, spec, refs, enums)
        == (if b == "" then "" else b + "\n\n") + ("export type " + name + " = " + Serialize(spec) + ";") + "\n\n" + p.1 + "\n"
  {
    var p := ParserText(name, refs, enums);
    var own := "export type " + name + " = " + Serialize(spec) + ";";
    ImportBlockFramed(refs, p.0, enums);
    ParserTextFramed(name, refs, enums);
    TrimmedModule(ImportBlock(refs, p.0, enums), own, p.1);
  }

  /** The accumulator `fileContent` leaves behind: reordered by `parser`, except for an
      enumeration, whose parser is never called. */
  function RefsAfter(spec: PropSpec, refs: seq<TSRef>): seq<TSRef>
  {
    if spec.Enum? then refs else ExtensionsFirst(refs)
  }

  /** `fileContent`: calls `parser` for a schema that is not an enumeration, which
      reorders its accumulator, then renders the module from it. */
  method RenderSchema(s: Schema, enums: seq<string>, ghost refs: seq<TSRef>) returns (content: string)
    requires s.meta.tsRefs == refs
    modifies s.meta
    ensures s.meta.tsRefs == RefsAfter(s.spec, refs) && s.meta.goRefs == old(s.meta.goRefs)
    ensures content == FileText(s.name, s.spec, RefsAfter(s.spec, refs), enums)
  {
    var isIdentity, parserText := false, "";
    if !s.spec.Enum? {
      isIdentity, parserText := Parser(s.name, s.meta, enums);
    }
    var sorted := s.meta.tsRefs;
    var serialized := Serialize(s.spec);
    var own := if s.spec.Enum? then "export enum " + s.name + " " + serialized else "export type " + s.name + " = " + serialized + ";";
    var runtimeDeps := GetRuntimeDeps(sorted, isIdentity);
    var deps := GetDeps(sorted);
    var imports := Text.Join(NonEmpty([RuntimeImports(runtimeDeps), StringifyImports(deps, enums)]), "\n");
    content := Text.Trim("\n" + imports + "\n\n" + own + "\n\n" + parserText + "\n") + "\n";
  }

  /** `index(source, title, description, schemas)`: one export line for an enumeration,
      the type and its decode function for any other schema. */
  function IndexLine(s: Schema): string
  {
    if s.spec.Enum? then ReExport(s.name, s.name)
    else "export type { " + s.name + " } from './" + s.name + "';\n" + ReExport("parse" + s.name, s.name)
  }

  /** A value export of `list` from the module of `name`. */
  function ReExport(list: string, name: string): string
  {
    "export { " + list + " } from './" + name + "';"
  }

  function IndexLines(schemas: seq<Schema>): (r: seq<string>)
    ensures |r| == |schemas| && forall i :: 0 <= i < |schemas| ==> r[i] == IndexLine(schemas[i])
  {
    seq(|schemas|, i requires 0 <= i < |schemas| => IndexLine(schemas[i]))
  }

  function Index(schemas: seq<Schema>): string
  {
    "\n" + Text.Join(IndexLines(schemas), "\n") + "\n"
  }

  /** An index entry exports the value of an enumeration; for any other schema it exports
      the type and then the decode function. */
  lemma IndexLineKind(s: Schema)
    ensures Text.HasPrefix(IndexLine(s), "export { ") <==> s.spec.Enum?
    ensures !s.spec.Enum? ==> Text.HasSuffix(IndexLine(s), ReExport("parse" + s.name, s.name))
  {
    var line := IndexLine(s);
    if s.spec.Enum? {
      Text.Affixes("export { ", s.name + " } from './" + s.name + "';");
    } else {
      var first := "export type { " + s.name + " } from './" + s.name + "';\n";
      Text.Affixes(first, ReExport("parse" + s.name, s.name));
      assert line[7] == 't';
    }
  }

  /** `allEnumNames`: the names of the enumeration schemas, in order. */
  function EnumNames(schemas: seq<Schema>): (names: seq<string>)
    ensures forall n :: n in names <==> exists i :: 0 <= i < |schemas| && schemas[i].spec.Enum? && schemas[i].name == n
  {
    if schemas == [] then []
    else
      var rest := EnumNames(schemas[1..]);
      assert forall i :: 1 <= i < |schemas| ==> schemas[i] == schemas[1..][i - 1];
      (if schemas[0].spec.Enum? then [schemas[0].name] else []) + rest
  }

  /** The entries the reconciliation keeps: the index module and the bare schema names. */
  function KeepList(schemas: seq<Schema>): seq<string>
  {
    ["index.ts"] + SchemaNames(schemas)
  }

  /** The module name of each schema. */
  function TsFileNames(schemas: seq<Schema>): (names: seq<string>)
    ensures |names| == |schemas| && forall i :: 0 <= i < |schemas| ==> names[i] == schemas[i].name + ".ts"
  {
    seq(|schemas|, i requires 0 <= i < |schemas| => schemas[i].name + ".ts")
  }

  /** The modules `generate` writes, one per schema; `refs` holds each schema's accumulator
      before `generate`. */
  function TsFileContents(schemas: seq<Schema>, refs: seq<seq<TSRef>>): (contents: seq<string>)
    requires |refs| == |schemas|
    ensures Rendered(schemas, refs, EnumNames(schemas), SortedRefs(schemas, refs), contents)
  {
    seq(|schemas|, i requires 0 <= i < |schemas| =>
      FileText(schemas[i].name, schemas[i].spec, RefsAfter(schemas[i].spec, refs[i]), EnumNames(schemas)))
  }

  /** `sorted[i]` is the accumulator of `schemas[i]` after `fileContent`, and `contents[i]`
      the module rendered from it. */
  ghost predicate Rendered(schemas: seq<Schema>, refs: seq<seq<TSRef>>, enums: seq<string>, sorted: seq<seq<TSRef>>, contents: seq<string>)
  {
    && |refs| == |schemas| && |sorted| == |schemas| && |contents| == |schemas|
    && forall i {:trigger RefsAfter(schemas[i].spec, refs[i])} :: 0 <= i < |schemas| ==>
         && sorted[i] == RefsAfter(schemas[i].spec, refs[i])
         && contents[i] == FileText(schemas[i].name, schemas[i].spec, sorted[i], enums)
  }

  /** The models directory after `generate`: stale entries deleted, `contents[i]` written
      for `schemas[i]`, then the index. */
  function Output(files: map<string, string>, schemas: seq<Schema>, contents: seq<string>): map<string, string>
    requires |contents| == |schemas|
  {
    Files.WriteAll(Files.Kept(files, KeepList(schemas)), TsFileNames(schemas), contents)["index.ts" := Index(schemas)]
  }

  /** An entry survives `generate` when it is the index or a bare schema name, and the
      schema modules and the index are (re)written; every other entry is deleted. */
  lemma OutputFiles(files: map<string, string>, schemas: seq<Schema>, contents: seq<string>, f: string)
    requires |contents| == |schemas|
    ensures f in Output(files, schemas, contents) <==>
      (f in files && exists i :: 0 <= i < |schemas| && schemas[i].name == f)
      || (exists i :: 0 <= i < |schemas| && schemas[i].name + ".ts" == f)
      || f == "index.ts"
  {
    var names := TsFileNames(schemas);
    Files.WriteAllKeys(Files.Kept(files, KeepList(schemas)), names, contents, f);
    if f in names {
      var i :| 0 <= i < |names| && names[i] == f;
      assert schemas[i].name + ".ts" == f;
    }
    if f in SchemaNames(schemas) {
      var i :| 0 <= i < |schemas| && SchemaNames(schemas)[i] == f;
      assert schemas[i].name == f;
    }
    if exists i :: 0 <= i < |schemas| && schemas[i].name == f {
      var i :| 0 <= i < |schemas| && schemas[i].name == f;
      assert SchemaNames(schemas)[i] == f;
    }
  }

  /** Two module names are equal only for equal schema names. */
  lemma TsFileNameInjective(a: string, b: string)
    requires a + ".ts" == b + ".ts"
    ensures a == b
  {
    assert |a| == |b|;
    assert a == (a + ".ts")[..|a|];
  }

  /** After `generate`, the module of a schema holds that schema's content, the last one
      for a repeated name, unless the schema is named `index` and the index overwrote it. */
  lemma OutputSchemaFile(files: map<string, string>, schemas: seq<Schema>, contents: seq<string>, i: nat)
    requires |contents| == |schemas| && i < |schemas|
    requires forall j :: i < j < |schemas| ==> schemas[j].name != schemas[i].name
    requires schemas[i].name != "index"
    ensures var out := Output(files, schemas, contents);
      schemas[i].name + ".ts" in out && out[schemas[i].name + ".ts"] == contents[i]
  {
    var kept := Files.Kept(files, KeepList(schemas));
    var names := TsFileNames(schemas);
    var f := schemas[i].name + ".ts";
    forall j | i < j < |names| ensures names[j] != f {
      if names[j] == f {
        TsFileNameInjective(schemas[j].name, schemas[i].name);
      }
    }
    Files.WriteAllContent(kept, names, contents, f);
    assert f != "index.ts" by {
      if f == "index.ts" {
        TsFileNameInjective(schemas[i].name, "index");
      }
    }
  }

  /** The accumulator of each schema once its module is written. */
  function SortedRefs(schemas: seq<Schema>, refs: seq<seq<TSRef>>): (r: seq<seq<TSRef>>)
    requires |refs| == |schemas|
    ensures |r| == |schemas| && forall i :: 0 <= i < |schemas| ==> r[i] == RefsAfter(schemas[i].spec, refs[i])
  {
    seq(|schemas|, i requires 0 <= i < |schemas| => RefsAfter(schemas[i].spec, refs[i]))
  }

  /** One step of the `forEach` of `generate`: renders the module of `schemas[i]` and writes it. */
  method WriteModule(dir: Files.Directory, s: Schema, enums: seq<string>, ghost schemas: seq<Schema>, ghost refs: seq<seq<TSRef>>, ghost sorted: seq<seq<TSRef>>, ghost contents: seq<string>, ghost i: nat)
    requires i < |schemas| && s == schemas[i] && Rendered(schemas, refs, enums, sorted, contents)
    requires s.meta.tsRefs == refs[i]
    modifies dir, s.meta
    ensures s.meta.tsRefs == sorted[i] && s.meta.goRefs == old(s.meta.goRefs)
    ensures dir.files == old(dir.files)[s.name + ".ts" := contents[i]]
  {
    var content := RenderSchema(s, enums, refs[i]);
    assert s.meta.tsRefs == sorted[i] && content == contents[i];
    dir.Write(s.name + ".ts", content);
  }

  /** The `forEach` of `generate`: renders and writes the module of each schema in turn. */
  method WriteModules(dir: Files.Directory, schemas: seq<Schema>, enums: seq<string>, ghost refs: seq<seq<TSRef>>, ghost goRefs: seq<seq<string>>, ghost sorted: seq<seq<TSRef>>, ghost contents: seq<string>)
    requires forall i, j :: 0 <= i < j < |schemas| ==> schemas[i].meta != schemas[j].meta
    requires Rendered(schemas, refs, enums, sorted, contents) && Accumulators(schemas, refs, goRefs)
    modifies dir, Metas(schemas)
    ensures Accumulators(schemas, sorted, goRefs)
    ensures dir.files == Files.WriteAll(old(dir.files), TsFileNames(schemas), contents)
  {
    ghost var names := TsFileNames(schemas);
    var i := 0;
    while i < |schemas|
      invariant 0 <= i <= |schemas|
      invariant dir.files == Files.WriteAll(old(dir.files), names[..i], contents[..i])
      invariant forall j :: 0 <= j < i ==> schemas[j].meta.tsRefs == sorted[j]
      invariant forall j :: i <= j < |schemas| ==> schemas[j].meta.tsRefs == refs[j]
      invariant forall j :: 0 <= j < |schemas| ==> schemas[j].meta.goRefs == goRefs[j]
    {
      var s := schemas[i];
      assert s.meta in Metas(schemas);
      Files.WriteAllStep(old(dir.files), names, contents, i);
      label step:
      WriteModule(dir, s, enums, schemas, refs, sorted, contents, i);
      forall j | 0 <= j < |schemas| && j != i
        ensures schemas[j].meta.tsRefs == old@step(schemas[j].meta.tsRefs) && schemas[j].meta.goRefs == old@step(schemas[j].meta.goRefs)
      {
        assert schemas[j].meta != s.meta;
      }
      i := i + 1;
    }
    assert names[..i] == names && contents[..i] == contents;
  }

  /** `generate`: reconciles the models directory, writes one module per schema (which
      reorders the accumulator of every schema that is not an enumeration), then the index. */
  method Generate(dir: Files.Directory, schemas: seq<Schema>)
    requires forall i, j :: 0 <= i < j < |schemas| ==> schemas[i].meta != schemas[j].meta
    modifies dir, Metas(schemas)
    ensures Accumulators(schemas, SortedRefs(schemas, old(TsRefsOf(schemas))), old(GoRefsOf(schemas)))
    ensures dir.files == Output(old(dir.files), schemas, TsFileContents(schemas, old(TsRefsOf(schemas))))
  {
    ghost var refs, goRefs := TsRefsOf(schemas), GoRefsOf(schemas);
    ghost var sorted, contents := SortedRefs(schemas, refs), TsFileContents(schemas, refs);
    assert Accumulators(schemas, refs, goRefs);
    dir.Prune(KeepList(schemas));
    var enums := EnumNames(schemas);
    WriteModules(dir, schemas, enums, refs, goRefs, sorted, contents);
    dir.Write("index.ts", Index(schemas));
  }
}
