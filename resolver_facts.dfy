/**
 * Properties of the resolution rules: the precedence of the rules, what each rule
 * appends to a schema's accumulator, the shape of the property records, and the
 * consequence for the Go imports of a schema.
 */
module ResolverFacts {
  import opened Wrappers
  import opened Types
  import Text
  import opened Resolver

  /** The extension names of two member lists placed one after the other. */
  lemma {:induction false} ExtensionNamesAppend(a: seq<Node>, b: seq<Node>)
    ensures ExtensionNames(a + b) == ExtensionNames(a) + ExtensionNames(b)
  {
    if a != [] {
      assert (a + b)[1..] == a[1..] + b;
      ExtensionNamesAppend(a[1..], b);
    } else {
      assert a + b == b;
    }
  }

  /** The extensions of an `allOf` are exactly the non-empty names of its `$ref` members. */
  lemma {:induction false} ExtensionNamesAreRefNames(members: seq<Node>, x: string)
    ensures x in ExtensionNames(members) <==>
      x != "" && exists i :: 0 <= i < |members| && HasRef(members[i]) && RefName(members[i].refPath.value) == x
  {
    if members != [] {
      ExtensionNamesAreRefNames(members[1..], x);
      if x in ExtensionNames(members[1..]) {
        var i :| 0 <= i < |members[1..]| && HasRef(members[1..][i]) && RefName(members[1..][i].refPath.value) == x;
        assert members[i + 1] == members[1..][i];
      }
      if exists i :: 0 <= i < |members| && HasRef(members[i]) && RefName(members[i].refPath.value) == x {
        var i :| 0 <= i < |members| && HasRef(members[i]) && RefName(members[i].refPath.value) == x;
        if i > 0 {
          assert members[1..][i - 1] == members[i];
        }
      }
    }
  }

  /** Any node with `allOf` resolves to an object whose extensions are the `$ref` members'
      names, and whose extension references close the appended list, one per name, marked as
      extensions exactly when no attribute was passed. */
  lemma AllOfIsObject(owner: string, n: Node, attr: Option<AttributeInfo>, nest: Option<Nesting>)
    requires n.allOf.AllOf?
    ensures var r := ResolveNode(owner, n, attr, nest);
      var props := AllOfPropertiesUpTo(owner, n, |n.allOf.members|);
      var exts := ExtensionNames(n.allOf.members);
      && (r.value.Success? <==> props.value.Success?)
      && (r.value.Success? ==> r.value.value == Object(props.value.value, exts))
      && (r.value.Success? ==> |r.tsRefs| == |props.tsRefs| + |exts|)
      && (r.value.Success? ==> forall i :: 0 <= i < |exts| ==>
            && r.tsRefs[|props.tsRefs| + i].name == exts[i]
            && (r.tsRefs[|props.tsRefs| + i].isExtension <==> attr.None?)
            && r.tsRefs[|props.tsRefs| + i].attributeInfo == attr
            && r.tsRefs[|props.tsRefs| + i].nesting == nest)
  {
  }

  /** A one-element `allOf` whose member is a `$ref` still resolves to an object with that
      one extension, never to a reference: the single-reference shortcut is unreachable. */
  lemma SingleRefAllOfIsObject(owner: string, n: Node, attr: Option<AttributeInfo>, nest: Option<Nesting>)
    requires n.allOf.AllOf? && |n.allOf.members| == 1
    requires var m := n.allOf.members[0]; HasRef(m) && m.typ != Some("object")
    ensures var name := RefName(n.allOf.members[0].refPath.value);
      && ResolveNode(owner, n, attr, nest).value == Success(Object([], if name == "" then [] else [name]))
      && !ResolveNode(owner, n, attr, nest).value.value.Ref?
  {
    var m := n.allOf.members[0];
    assert n.allOf.members == [m];
    assert AllOfPropertiesUpTo(owner, n, 1) == AllOfPropertiesUpTo(owner, n, 0) == Resolved(Success([]), [], []);
    assert [m][1..] == [];
    assert ExtensionNames([m]) == (if RefName(m.refPath.value) != "" then [RefName(m.refPath.value)] else []) + ExtensionNames([]);
    assert ExtensionNames([]) == [];
    var name := RefName(m.refPath.value);
    assert ExtensionNames(n.allOf.members) == (if name == "" then [] else [name]);
    var r := ResolveNode(owner, n, attr, nest);
    assert r.value == Success(Object(AllOfPropertiesUpTo(owner, n, 1).value.value, ExtensionNames(n.allOf.members)));
  }

  /** A plain string, number or boolean node leaves the accumulator unchanged; an enumeration
      wins over any format. */
  lemma PlainNodes(owner: string, n: Node, attr: Option<AttributeInfo>, nest: Option<Nesting>)
    requires n.allOf.NoAllOf?
    requires n.typ == Some("number") || n.typ == Some("boolean")
      || (n.typ == Some("string") && (n.enumValues.Some? || (n.format != Some("date-time") && n.format != Some("date"))))
    ensures var r := ResolveNode(owner, n, attr, nest);
      && r.tsRefs == [] && r.goRefs == [] && r.value.Success?
      && (n.typ == Some("string") && n.enumValues.Some? ==> r.value.value == Enum(n.enumValues.value))
      && (n.typ == Some("string") && n.enumValues.None? ==> r.value.value == Plain(Str))
      && (n.typ == Some("number") ==> r.value.value == Plain(Number))
      && (n.typ == Some("boolean") ==> r.value.value == Plain(Boolean))
  {
  }

  /** A date-time string registers the Go `time` import and one `Date` reference; a date
      string registers only a `DateWithoutTime` reference. Both carry the caller's attribute
      and nesting and are not extensions. */
  lemma DateNodes(owner: string, n: Node, attr: Option<AttributeInfo>, nest: Option<Nesting>)
    requires n.allOf.NoAllOf? && n.typ == Some("string") && n.enumValues.None?
    requires n.format == Some("date-time") || n.format == Some("date")
    ensures var r := ResolveNode(owner, n, attr, nest);
      && |r.tsRefs| == 1 && r.tsRefs[0].attributeInfo == attr && r.tsRefs[0].nesting == nest && !r.tsRefs[0].isExtension
      && (n.format == Some("date-time") ==> r.value == Success(Plain(DateTime)) && r.tsRefs[0].name == "Date" && r.goRefs == ["time"])
      && (n.format == Some("date") ==> r.value == Success(Plain(Date)) && r.tsRefs[0].name == "DateWithoutTime" && r.goRefs == [])
  {
  }

  /** An integer node is the plain kind named by its format, `int64` when the format is absent
      or empty; the accumulator is unchanged. */
  lemma IntegerNodes(owner: string, n: Node, attr: Option<AttributeInfo>, nest: Option<Nesting>)
    requires n.allOf.NoAllOf? && n.typ == Some("integer")
    ensures var r := ResolveNode(owner, n, attr, nest);
      && r.tsRefs == [] && r.goRefs == []
      && (r.value.Success? <==> exists k :: PlainName(k) == IntegerFormat(n))
      && (r.value.Success? ==> r.value.value.Plain? && PlainName(r.value.value.kind) == IntegerFormat(n))
      && (n.format.None? ==> r.value == Success(Plain(Int64)))
  {
    if ResolveNode(owner, n, attr, nest).value.Failure? {
      forall k: PlainKind ensures PlainName(k) != IntegerFormat(n) {
        assert PlainKindNamed(IntegerFormat(n)) == None;
      }
    }
  }

  /** An `items` or `additionalProperties` node wraps its child, which is resolved with the
      same attribute and with the nesting replaced by the array or map nesting: the nesting
      the node itself was given plays no part. */
  lemma ContainerNodes(owner: string, n: Node, attr: Option<AttributeInfo>, nest1: Option<Nesting>, nest2: Option<Nesting>)
    requires n.allOf.NoAllOf? && n.typ !in {Some("string"), Some("number"), Some("boolean"), Some("integer")} && !HasRef(n)
    requires n.items.Some? || n.additionalProperties.ValueSchema?
    ensures ResolveNode(owner, n, attr, nest1) == ResolveNode(owner, n, attr, nest2)
    ensures var r := ResolveNode(owner, n, attr, nest1);
      var child := if n.items.Some? then ResolveNode(owner, n.items.value, attr, Some(InArray))
                   else ResolveNode(owner, n.additionalProperties.schema, attr, Some(InMap));
      && r.tsRefs == child.tsRefs && r.goRefs == child.goRefs
      && (r.value.Success? <==> child.value.Success?)
      && (r.value.Success? ==> r.value.value == (if n.items.Some? then Array(child.value.value) else Map(child.value.value)))
  {
  }

  /** A node that matches no rule, and `additionalProperties: true`, fail with the
      unsupported-node condition for the schema being resolved. */
  lemma UnsupportedNodes(owner: string, n: Node, attr: Option<AttributeInfo>, nest: Option<Nesting>)
    requires n.allOf.NoAllOf? && n.typ !in {Some("string"), Some("number"), Some("boolean"), Some("integer")} && !HasRef(n)
    requires n.items.None?
    requires n.additionalProperties == Flag(true)
      || (!n.additionalProperties.ValueSchema? && n.properties.NoProperties? && n.typ != Some("object"))
    ensures ResolveNode(owner, n, attr, nest) == Resolved(Failure(Unsupported(owner)), [], [])
  {
  }

  /** The resolution of the `i`-th property of `n`: attributed with its key and whether it
      is required, with no nesting. */
  function Child(owner: string, n: Node, i: nat): Resolved<PropSpec>
    requires i < |Entries(n)|
  {
    var e := Entries(n)[i];
    ResolveNode(owner, e.schema, Some(AttributeInfo(e.key, IsRequired(n, e.key))), None)
  }

  /** `p` is the record built for the `i`-th property of `n`. */
  predicate IsPropertyRecord(p: Prop, owner: string, n: Node, i: nat)
    requires i < |Entries(n)|
  {
    var e := Entries(n)[i];
    && p.name == e.key
    && (p.required <==> IsRequired(n, e.key))
    && p.nullable == e.schema.nullable
    && p.description == e.schema.description
    && p.extraTags == ExtraTags(e.schema)
    && Child(owner, n, i).value == Success(p.typ)
  }

  /** One more property succeeds iff the ones before it and its own resolution do. */
  lemma PropertiesStep(owner: string, n: Node, k: nat)
    requires 0 < k <= |Entries(n)|
    ensures PropertiesUpTo(owner, n, k).value.Success? <==>
      PropertiesUpTo(owner, n, k - 1).value.Success? && Child(owner, n, k - 1).value.Success?
  {
    var e := Entries(n)[k - 1];
    assert Child(owner, n, k - 1) == ResolveNode(owner, e.schema, Some(AttributeInfo(e.key, IsRequired(n, e.key))), None);
  }

  /** `getProperties` succeeds iff every property resolves. */
  lemma {:induction false} PropertiesSucceed(owner: string, n: Node, k: nat)
    requires k <= |Entries(n)|
    ensures PropertiesUpTo(owner, n, k).value.Success? <==> forall i :: 0 <= i < k ==> Child(owner, n, i).value.Success?
  {
    if k > 0 {
      PropertiesSucceed(owner, n, k - 1);
      PropertiesStep(owner, n, k);
      if !PropertiesUpTo(owner, n, k - 1).value.Success? {
        var i :| 0 <= i < k - 1 && !Child(owner, n, i).value.Success?;
        assert !(forall j :: 0 <= j < k ==> Child(owner, n, j).value.Success?);
      }
    }
  }

  /** On success, `getProperties` yields one record per key, in key order. */
  lemma {:induction false} PropertiesShape(owner: string, n: Node, k: nat)
    requires k <= |Entries(n)|
    ensures var p := PropertiesUpTo(owner, n, k);
      p.value.Success? ==> |p.value.value| == k && forall i :: 0 <= i < k ==> IsPropertyRecord(p.value.value[i], owner, n, i)
  {
    if k > 0 {
      PropertiesShape(owner, n, k - 1);
      var prev := PropertiesUpTo(owner, n, k - 1);
      var p := PropertiesUpTo(owner, n, k);
      if prev.value.Success? && p.value.Success? {
        forall i | 0 <= i < k ensures IsPropertyRecord(p.value.value[i], owner, n, i) {
          if i < k - 1 {
            assert p.value.value[i] == prev.value.value[i];
          }
        }
      }
    }
  }

  /** The only Go import resolution registers is `time`. */
  lemma {:induction false} ResolveGoRefsAreTime(owner: string, n: Node, attr: Option<AttributeInfo>, nest: Option<Nesting>)
    decreases n, 2
    ensures forall g :: g in ResolveNode(owner, n, attr, nest).goRefs ==> g == "time"
  {
    if n.allOf.AllOf? {
      AllOfGoRefsAreTime(owner, n, |n.allOf.members|);
    }
    if n.items.Some? {
      ResolveGoRefsAreTime(owner, n.items.value, attr, Some(InArray));
    }
    if n.additionalProperties.ValueSchema? {
      ResolveGoRefsAreTime(owner, n.additionalProperties.schema, attr, Some(InMap));
    }
    PropertiesGoRefsAreTime(owner, n, |Entries(n)|);
  }

  lemma {:induction false} PropertiesGoRefsAreTime(owner: string, n: Node, k: nat)
    requires k <= |Entries(n)|
    decreases n, 1, k
    ensures forall g :: g in PropertiesUpTo(owner, n, k).goRefs ==> g == "time"
  {
    if k > 0 {
      PropertiesGoRefsAreTime(owner, n, k - 1);
      var e := Entries(n)[k - 1];
      ResolveGoRefsAreTime(owner, e.schema, Some(AttributeInfo(e.key, IsRequired(n, e.key))), None);
    }
  }

  lemma {:induction false} AllOfGoRefsAreTime(owner: string, n: Node, k: nat)
    requires n.allOf.AllOf? && k <= |n.allOf.members|
    decreases n, 1, k
    ensures forall g :: g in AllOfPropertiesUpTo(owner, n, k).goRefs ==> g == "time"
  {
    if k > 0 {
      AllOfGoRefsAreTime(owner, n, k - 1);
      var m := n.allOf.members[k - 1];
      PropertiesGoRefsAreTime(owner, m, |Entries(m)|);
    }
  }

  /** Adding names that are all `x` to an empty set gives nothing or `x` alone. */
  lemma {:induction false} AddAllOfOneName(xs: seq<string>, x: string)
    requires forall y :: y in xs ==> y == x
    ensures Text.AddAll([], xs) == if xs == [] then [] else [x]
  {
    if xs != [] {
      var init := xs[..|xs| - 1];
      assert forall y :: y in init ==> y in xs;
      AddAllOfOneName(init, x);
      assert xs[|xs| - 1] in xs;
    }
  }

  /** The Go import set of a parsed schema is empty or holds `time` alone. */
  lemma SchemaGoRefs(d: Entry)
    ensures var g := Text.AddAll([], Definition(d).goRefs); g == [] || g == ["time"]
  {
    ResolveGoRefsAreTime(d.key, d.schema, None, None);
    AddAllOfOneName(Definition(d).goRefs, "time");
  }
}
