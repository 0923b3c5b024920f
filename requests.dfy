/**
 * The request collector of generate.ts: every operation of every path item becomes one
 * Request, with `{p}` path parameters rewritten to `:p`, a category taken from the first
 * tag, and the permissions found among the operation's extra tags; the flattened list is
 * sorted by category, then by operation id.
 */
module Requests {
  import opened Wrappers
  import opened Types
  import Text
  import Resolver

  /** One operation of a path item, with the fields the collector reads. */
  datatype Operation = Operation(
    requestType: Method,
    summary: Option<string>,
    operationId: string,
    tags: Option<seq<string>>,
    extraTags: Option<seq<(string, string)>>,
    permissions: Option<seq<string>>)

  /** One entry of `paths`: the path template and its operations, in key order. */
  datatype PathItem = PathItem(path: string, operations: seq<Operation>)

  /** The index of the first '}' in `s`, or `|s|` when there is none. */
  function CloseAt(s: string): (k: nat)
    ensures k <= |s|
    ensures k < |s| ==> s[k] == '}'
    ensures forall i :: 0 <= i < k ==> s[i] != '}'
  {
    if s == [] then 0 else if s[0] == '}' then 0 else 1 + CloseAt(s[1..])
  }

  /** `path.replace(/{([^}]+)}/g, ':$1')`: scanning left to right, a '{' that is followed by
      at least one character other than '}' and then a '}' is one parameter; the braces are
      replaced by a leading ':' and scanning resumes after the '}'. */
  function ConvertPath(s: string): string
    decreases |s|
  {
    if s == [] then []
    else if s[0] == '{' && 2 <= CloseAt(s) < |s| then ":" + s[1..CloseAt(s)] + ConvertPath(s[CloseAt(s) + 1..])
    else [s[0]] + ConvertPath(s[1..])
  }

  /** A path without '{' is left unchanged. */
  lemma {:induction false} ConvertPathWithoutParameters(s: string)
    requires '{' !in s
    ensures ConvertPath(s) == s
  {
    if s != [] {
      assert s[0] != '{';
      assert '{' !in s[1..];
      ConvertPathWithoutParameters(s[1..]);
    }
  }

  /** A literal part without '{', followed by a non-empty parameter name without '}' in
      braces, becomes the literal part, ':' and the name. */
  lemma {:induction false} ConvertPathParameter(lit: string, p: string, rest: string)
    requires '{' !in lit && p != [] && '}' !in p
    ensures ConvertPath(lit + "{" + p + "}" + rest) == lit + ":" + p + ConvertPath(rest)
  {
    var s := lit + "{" + p + "}" + rest;
    if lit == [] {
      assert s == "{" + p + "}" + rest;
      ConvertPathAtParameter(p, rest);
    } else {
      var tail := lit[1..] + "{" + p + "}" + rest;
      assert s == [lit[0]] + tail;
      assert '{' !in lit[1..] by {
        assert forall c :: c in lit[1..] ==> c in lit;
      }
      ConvertPathParameter(lit[1..], p, rest);
      assert ConvertPath(s) == [lit[0]] + ConvertPath(tail) by {
        assert s[0] == lit[0] && s[0] != '{' && s[1..] == tail;
      }
      assert lit + ":" + p + ConvertPath(rest) == [lit[0]] + (lit[1..] + ":" + p + ConvertPath(rest));
    }
  }

  /** A parameter at the start of a path becomes ':' and its name. */
  lemma ConvertPathAtParameter(p: string, rest: string)
    requires p != [] && '}' !in p
    ensures ConvertPath("{" + p + "}" + rest) == ":" + p + ConvertPath(rest)
  {
    var s := "{" + p + "}" + rest;
    CloseAtParameter(p, rest);
    assert s[1..|p| + 1] == p;
    assert s[|p| + 2..] == rest;
  }

  lemma CloseAtParameter(p: string, rest: string)
    requires '}' !in p
    ensures CloseAt("{" + p + "}" + rest) == |p| + 1
  {
    var s := "{" + p + "}" + rest;
    assert s[|p| + 1] == '}';
    forall i | 0 < i < |p| + 1 ensures s[i] != '}' {
      assert s[i] == p[i - 1];
    }
    CloseAtFirst(s, |p| + 1);
  }

  lemma {:induction false} CloseAtFirst(s: string, k: nat)
    requires k < |s| && s[k] == '}' && forall i :: 0 <= i < k ==> s[i] != '}'
    ensures CloseAt(s) == k
  {
    if k > 0 {
      CloseAtFirst(s[1..], k - 1);
    }
  }

  /** A brace pair with nothing between is not a parameter and is kept. */
  lemma EmptyBracesKept(rest: string)
    ensures ConvertPath("{}" + rest) == "{}" + ConvertPath(rest)
  {
    var s := "{}" + rest;
    var t := s[1..];
    assert t == "}" + rest && t[0] == '}' && t[1..] == rest;
    assert CloseAt(t) == 0;
    assert s[0] == '{' && CloseAt(s) == 1;
    assert ConvertPath(s) == "{" + ConvertPath(t);
    assert ConvertPath(t) == "}" + ConvertPath(rest);
  }

  /** `request.tags?.[0] || 'index'`. */
  function Category(tags: Option<seq<string>>): (c: string)
    ensures c != ""
    ensures c != "index" ==> tags.Some? && tags.value != [] && c == tags.value[0]
    ensures tags.Some? && tags.value != [] && tags.value[0] != "" ==> c == tags.value[0]
    ensures tags.None? || tags.value == [] || tags.value[0] == "" ==> c == "index"
  {
    if tags.Some? && |tags.value| > 0 && tags.value[0] != "" then tags.value[0] else "index"
  }

  /** `extraTags.find(tag => tag.key === 'x-permissions')?.value || []`: the value of the
      first tag with that key, unless there is none or the value is the empty text. */
  function Permissions(tags: seq<ExtraTag>): (p: TagValue)
    ensures (forall i :: 0 <= i < |tags| ==> tags[i].key != "x-permissions") ==> p == Names([])
    ensures forall i ::
      (0 <= i < |tags| && tags[i].key == "x-permissions" && (forall j :: 0 <= j < i ==> tags[j].key != "x-permissions"))
      ==> p == (if tags[i].value == Text("") then Names([]) else tags[i].value)
  {
    if tags == [] then Names([])
    else if tags[0].key == "x-permissions" then (if tags[0].value == Text("") then Names([]) else tags[0].value)
    else Permissions(tags[1..])
  }

  /** The Request collected for one operation of the path `path`. */
  function MakeRequest(path: string, op: Operation): Request
  {
    Request(
      ConvertPath(path),
      op.requestType,
      op.summary,
      op.operationId,
      Category(op.tags),
      Some(Permissions(Resolver.ExtraTagsOf(op.extraTags, op.permissions))))
  }

  /** An operation without an `x-permissions` key among its `x-extra-tags` carries its
      `x-permissions` list, or the empty list when it has none. */
  lemma RequestPermissions(path: string, op: Operation)
    requires op.extraTags.Some? ==> forall i :: 0 <= i < |op.extraTags.value| ==> op.extraTags.value[i].0 != "x-permissions"
    ensures MakeRequest(path, op).permissions == Some(Names(if op.permissions.Some? then op.permissions.value else []))
  {
    var tags := Resolver.ExtraTagsOf(op.extraTags, op.permissions);
    var n := if op.extraTags.Some? then |op.extraTags.value| else 0;
    if op.permissions.Some? {
      assert tags[n].key == "x-permissions";
      forall j | 0 <= j < n ensures tags[j].key != "x-permissions" {
        assert tags[j].key == op.extraTags.value[j].0;
      }
    } else {
      forall j | 0 <= j < |tags| ensures tags[j].key != "x-permissions" {
        assert tags[j].key == op.extraTags.value[j].0;
      }
    }
  }

  /** The requests of the path items, path by path and operation by operation
      (`map` then `flat`). */
  function Flatten(items: seq<PathItem>): seq<Request>
  {
    if items == [] then []
    else OperationsOf(items[0].path, items[0].operations) + Flatten(items[1..])
  }

  function OperationsOf(path: string, ops: seq<Operation>): (rs: seq<Request>)
    ensures |rs| == |ops| && forall j :: 0 <= j < |ops| ==> rs[j] == MakeRequest(path, ops[j])
  {
    if ops == [] then [] else [MakeRequest(path, ops[0])] + OperationsOf(path, ops[1..])
  }

  /** `r` is the request of the `j`-th operation of the `i`-th path item. */
  predicate RequestOf(items: seq<PathItem>, i: int, j: int, r: Request)
  {
    0 <= i < |items| && 0 <= j < |items[i].operations| && r == MakeRequest(items[i].path, items[i].operations[j])
  }

  /** Every operation yields its request. */
  lemma {:induction false} FlattenHas(items: seq<PathItem>, i: nat, j: nat)
    requires i < |items| && j < |items[i].operations|
    ensures MakeRequest(items[i].path, items[i].operations[j]) in Flatten(items)
  {
    var head := OperationsOf(items[0].path, items[0].operations);
    if i == 0 {
      assert head[j] in head;
    } else {
      FlattenHas(items[1..], i - 1, j);
      assert items[1..][i - 1] == items[i];
    }
  }

  /** Every collected request comes from one operation of one path item. */
  lemma {:induction false} FlattenFrom(items: seq<PathItem>, r: Request)
    requires r in Flatten(items)
    ensures exists i, j :: RequestOf(items, i, j, r)
  {
    var head := OperationsOf(items[0].path, items[0].operations);
    if r in head {
      var j :| 0 <= j < |head| && head[j] == r;
      assert RequestOf(items, 0, j, r);
    } else {
      FlattenFrom(items[1..], r);
      var i, j :| RequestOf(items[1..], i, j, r);
      assert items[1..][i] == items[i + 1];
      assert RequestOf(items, i + 1, j, r);
    }
  }

  /** The comparator `2 * cmp(a.category, b.category) + cmp(a.name, b.name)`. */
  function RequestOrder(a: Request, b: Request): int
  {
    2 * Text.Compare(a.category, b.category) + Text.Compare(a.name, b.name)
  }

  /** The comparator orders by category first and by name among equal categories. */
  lemma RequestOrderMeaning(a: Request, b: Request)
    ensures RequestOrder(a, b) < 0 <==>
      Text.LexLess(a.category, b.category) || (a.category == b.category && Text.LexLess(a.name, b.name))
    ensures RequestOrder(a, b) == 0 <==> a.category == b.category && a.name == b.name
    ensures RequestOrder(a, b) > 0 <==>
      Text.LexLess(b.category, a.category) || (a.category == b.category && Text.LexLess(b.name, a.name))
  {
  }

  /** `a` may come before `b` in the sorted list. */
  predicate NotAfter(a: Request, b: Request)
  {
    RequestOrder(a, b) <= 0
  }

  lemma NotAfterTotal(a: Request, b: Request)
    ensures NotAfter(a, b) || NotAfter(b, a)
  {
    RequestOrderMeaning(a, b);
    RequestOrderMeaning(b, a);
  }

  lemma NotAfterTransitive(a: Request, b: Request, c: Request)
    requires NotAfter(a, b) && NotAfter(b, c)
    ensures NotAfter(a, c)
  {
    RequestOrderMeaning(a, b);
    RequestOrderMeaning(b, c);
    RequestOrderMeaning(a, c);
    if a.category != c.category {
      if Text.LexLess(a.category, b.category) && Text.LexLess(b.category, c.category) {
        Text.LexLessTransitive(a.category, b.category, c.category);
      }
    } else if a.category != b.category {
      Text.LexLessAsymmetric(a.category, b.category);
    } else if Text.LexLess(a.name, b.name) && Text.LexLess(b.name, c.name) {
      Text.LexLessTransitive(a.name, b.name, c.name);
    }
  }

  predicate Sorted(rs: seq<Request>)
  {
    forall i, j :: 0 <= i < j < |rs| ==> NotAfter(rs[i], rs[j])
  }

  /** Inserts `r` before the first request it is not after. */
  function Insert(r: Request, rs: seq<Request>): seq<Request>
  {
    if rs == [] then [r]
    else if NotAfter(r, rs[0]) then [r] + rs
    else [rs[0]] + Insert(r, rs[1..])
  }

  /** Insert adds `r` and keeps everything else. */
  lemma {:induction false} InsertKeeps(r: Request, rs: seq<Request>)
    ensures multiset(Insert(r, rs)) == multiset(rs) + multiset{r}
  {
    if rs != [] && !NotAfter(r, rs[0]) {
      InsertKeeps(r, rs[1..]);
      assert rs == [rs[0]] + rs[1..];
    }
  }

  /** A sorted list stays sorted when an element not after any of its members is put in front. */
  lemma ConsSorted(x: Request, rs: seq<Request>)
    requires Sorted(rs)
    requires forall k :: 0 <= k < |rs| ==> NotAfter(x, rs[k])
    ensures Sorted([x] + rs)
  {
    var s := [x] + rs;
    forall i, j | 0 <= i < j < |s| ensures NotAfter(s[i], s[j]) {
      assert s[j] == rs[j - 1];
      if i > 0 {
        assert s[i] == rs[i - 1];
      }
    }
  }

  lemma TailSorted(rs: seq<Request>)
    requires rs != [] && Sorted(rs)
    ensures Sorted(rs[1..])
    ensures forall k :: 0 <= k < |rs| - 1 ==> NotAfter(rs[0], rs[1..][k])
  {
    var tail := rs[1..];
    forall i, j | 0 <= i < j < |tail| ensures NotAfter(tail[i], tail[j]) {
      assert tail[i] == rs[i + 1] && tail[j] == rs[j + 1];
    }
    forall k | 0 <= k < |tail| ensures NotAfter(rs[0], tail[k]) {
      assert tail[k] == rs[k + 1];
    }
  }

  lemma {:induction false} InsertSorted(r: Request, rs: seq<Request>)
    requires Sorted(rs)
    ensures Sorted(Insert(r, rs))
  {
    if rs == [] {
    } else if NotAfter(r, rs[0]) {
      forall k | 0 <= k < |rs| ensures NotAfter(r, rs[k]) {
        if k > 0 {
          assert Sorted(rs);
          assert NotAfter(rs[0], rs[k]);
          NotAfterTransitive(r, rs[0], rs[k]);
        }
      }
      ConsSorted(r, rs);
    } else {
      NotAfterTotal(r, rs[0]);
      var tail := rs[1..];
      TailSorted(rs);
      InsertSorted(r, tail);
      var ins := Insert(r, tail);
      InsertKeeps(r, tail);
      forall k | 0 <= k < |ins| ensures NotAfter(rs[0], ins[k]) {
        assert ins[k] in multiset(ins);
        if ins[k] != r {
          assert ins[k] in multiset(tail);
          var m :| 0 <= m < |tail| && tail[m] == ins[k];
        }
      }
      ConsSorted(rs[0], ins);
    }
  }

  /** A stable insertion sort under the request comparator. */
  function SortRequests(rs: seq<Request>): seq<Request>
  {
    if rs == [] then [] else Insert(rs[0], SortRequests(rs[1..]))
  }

  /** The sorted list is ordered by category, then name, and holds the same requests. */
  lemma {:induction false} SortRequestsCorrect(rs: seq<Request>)
    ensures Sorted(SortRequests(rs))
    ensures multiset(SortRequests(rs)) == multiset(rs)
  {
    if rs != [] {
      SortRequestsCorrect(rs[1..]);
      InsertSorted(rs[0], SortRequests(rs[1..]));
      InsertKeeps(rs[0], SortRequests(rs[1..]));
      assert rs == [rs[0]] + rs[1..];
    }
  }

  /** The request list of the document: every operation's request, sorted. */
  function CollectRequests(items: seq<PathItem>): seq<Request>
  {
    SortRequests(Flatten(items))
  }

  /** The collected requests are sorted and are exactly the requests of the operations,
      each as often as it occurs. */
  lemma CollectRequestsCorrect(items: seq<PathItem>)
    ensures Sorted(CollectRequests(items))
    ensures multiset(CollectRequests(items)) == multiset(Flatten(items))
    ensures forall r :: r in CollectRequests(items) ==> exists i, j :: RequestOf(items, i, j, r)
    ensures forall i, j :: 0 <= i < |items| && 0 <= j < |items[i].operations| ==>
      MakeRequest(items[i].path, items[i].operations[j]) in CollectRequests(items)
  {
    SortRequestsCorrect(Flatten(items));
    forall r | r in CollectRequests(items) ensures exists i, j :: RequestOf(items, i, j, r) {
      assert r in multiset(Flatten(items));
      FlattenFrom(items, r);
    }
    forall i, j | 0 <= i < |items| && 0 <= j < |items[i].operations|
      ensures MakeRequest(items[i].path, items[i].operations[j]) in CollectRequests(items)
    {
      FlattenHas(items, i, j);
      assert MakeRequest(items[i].path, items[i].operations[j]) in multiset(Flatten(items));
    }
  }
}
