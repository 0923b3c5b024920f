/**
 * String and sequence helpers with the semantics of the JavaScript built-ins the
 * generator relies on: `Array.prototype.join`, the `/\n(.+)/g` indentation
 * rewrite, `String.prototype.trim`, string comparison, and the insertion-ordered
 * `Set`.
 */
module Text {

  /** `parts.join(sep)`. */
  function Join(parts: seq<string>, sep: string): string
  {
    if |parts| == 0 then ""
    else if |parts| == 1 then parts[0]
    else parts[0] + sep + Join(parts[1..], sep)
  }

  /** Joining parts that are all non-empty gives "" exactly for the empty list. */
  lemma JoinEmptyIff(parts: seq<string>, sep: string)
    requires forall i :: 0 <= i < |parts| ==> parts[i] != ""
    ensures Join(parts, sep) == "" <==> parts == []
  {
    if |parts| > 0 {
      assert Join(parts, sep)[..|parts[0]|] == parts[0];
    }
  }

  /** `s` is non-empty, starts with `first` and ends with `last`. */
  predicate Framed(s: string, first: char, last: char)
  {
    s != [] && s[0] == first && s[|s| - 1] == last
  }

  /** Joining parts that all start with `first` and end with `last` gives a text that
      does too. */
  lemma {:induction false} JoinFramed(parts: seq<string>, sep: string, first: char, last: char)
    requires parts != [] && forall i :: 0 <= i < |parts| ==> Framed(parts[i], first, last)
    ensures Framed(Join(parts, sep), first, last)
  {
    if |parts| > 1 {
      var rest := Join(parts[1..], sep);
      JoinFramed(parts[1..], sep, first, last);
      var j := parts[0] + sep + rest;
      assert j[0] == parts[0][0];
      assert j[|j| - 1] == rest[|rest| - 1];
    }
  }

  predicate HasPrefix(s: string, prefix: string)
  {
    |s| >= |prefix| && s[..|prefix|] == prefix
  }

  predicate HasSuffix(s: string, suffix: string)
  {
    |s| >= |suffix| && s[|s| - |suffix|..] == suffix
  }

  /** A text followed by a prefix and a suffix of its own is the text followed by the two. */
  lemma Affixes(s: string, t: string)
    ensures HasPrefix(s + t, s) && HasSuffix(s + t, t)
  {
    assert (s + t)[..|s|] == s;
    assert (s + t)[|s|..] == t;
  }

  /** Two literals written as one, regrouped around a value. */
  lemma Regroup(a: string, b: string, c: string, d: string, e: string)
    ensures a + (b + c) + d + e == a + b + (c + d) + e
  {
  }

  /** Three texts between two others, regrouped. */
  lemma Enclose3(a: string, x: string, y: string, z: string, e: string)
    ensures a + x + y + z + e == a + (x + y + z) + e
  {
  }

  /** Five texts between two others, regrouped. */
  lemma Enclose5(a: string, v: string, w: string, x: string, y: string, z: string, e: string)
    ensures a + v + w + x + y + z + e == a + (v + w + x + y + z) + e
  {
  }

  /** The characters that end a line for a JavaScript regular expression's `.`. */
  predicate IsLineTerminator(c: char)
  {
    c == '\n' || c == '\r' || c == '\U{2028}' || c == '\U{2029}'
  }

  predicate NoLineTerminator(s: string)
  {
    forall i :: 0 <= i < |s| ==> !IsLineTerminator(s[i])
  }

  /** `s` with `pad` inserted after every newline that is followed by a character of the same line
      (the rewrite `s.replace(/\n(.+)/g, '\n' + pad + '$1')`). */
  function IndentNewLines(s: string, pad: string): string
  {
    if s == [] then []
    else if s[0] == '\n' && |s| > 1 && !IsLineTerminator(s[1]) then "\n" + pad + IndentNewLines(s[1..], pad)
    else [s[0]] + IndentNewLines(s[1..], pad)
  }

  /** Removes `pad` after every newline where IndentNewLines would have inserted it. */
  function StripIndent(s: string, pad: string): string
  {
    if s == [] then []
    else if s[0] == '\n' && |s| > |pad| + 1 && s[1..|pad| + 1] == pad && !IsLineTerminator(s[|pad| + 1])
    then "\n" + StripIndent(s[|pad| + 1..], pad)
    else [s[0]] + StripIndent(s[1..], pad)
  }

  lemma IndentKeepsHead(s: string, pad: string)
    requires s != []
    ensures IndentNewLines(s, pad) != [] && IndentNewLines(s, pad)[0] == s[0]
  {
  }

  /** Indentation loses nothing: stripping the inserted padding gives the text back. */
  lemma {:induction false} StripIndentOfIndent(s: string, pad: string)
    requires NoLineTerminator(pad)
    ensures StripIndent(IndentNewLines(s, pad), pad) == s
  {
    if s == [] {
    } else if s[0] == '\n' && |s| > 1 && !IsLineTerminator(s[1]) {
      var rest := IndentNewLines(s[1..], pad);
      IndentKeepsHead(s[1..], pad);
      var r := "\n" + pad + rest;
      assert r[1..|pad| + 1] == pad;
      assert r[|pad| + 1] == s[1];
      assert r[|pad| + 1..] == rest;
      StripIndentOfIndent(s[1..], pad);
      assert s == "\n" + s[1..];
    } else {
      var rest := IndentNewLines(s[1..], pad);
      var r := [s[0]] + rest;
      assert r == IndentNewLines(s, pad);
      if s[0] == '\n' && |r| > |pad| + 1 {
        IndentKeepsHead(s[1..], pad);
        assert IsLineTerminator(r[1]);
        if |pad| > 0 {
          assert r[1..|pad| + 1][0] == r[1];
          assert !IsLineTerminator(pad[0]);
        }
      }
      StripIndentOfIndent(s[1..], pad);
      assert s == [s[0]] + s[1..];
    }
  }

  /** A text without newlines is left unchanged by indentation. */
  lemma {:induction false} IndentWithoutNewlines(s: string, pad: string)
    requires '\n' !in s
    ensures IndentNewLines(s, pad) == s
  {
    if s != [] {
      assert s[0] != '\n';
      assert '\n' !in s[1..];
      IndentWithoutNewlines(s[1..], pad);
      assert s == [s[0]] + s[1..];
    }
  }

  /** `n` tab characters (`'\t'.repeat(n)`). */
  function Tabs(n: nat): (t: string)
    ensures |t| == n && forall i :: 0 <= i < n ==> t[i] == '\t'
  {
    if n == 0 then "" else "\t" + Tabs(n - 1)
  }

  /** The characters `String.prototype.trim` removes: white space and line terminators. */
  predicate IsJsWhitespace(c: char)
  {
    c == '\t' || c == '\U{000B}' || c == '\U{000C}' || c == ' ' || c == '\U{00A0}' || c == '\U{FEFF}'
    || c == '\U{1680}' || ('\U{2000}' <= c <= '\U{200A}') || c == '\U{202F}' || c == '\U{205F}'
    || c == '\U{3000}' || IsLineTerminator(c)
  }

  predicate AllWhitespace(s: string)
  {
    forall i :: 0 <= i < |s| ==> IsJsWhitespace(s[i])
  }

  /** Drops leading white space: the result is the suffix of `s` that starts at its first
      non-white-space character. */
  function TrimStart(s: string): (r: string)
    ensures |r| <= |s| && r == s[|s| - |r|..]
    ensures AllWhitespace(s[..|s| - |r|])
    ensures r == [] || !IsJsWhitespace(r[0])
  {
    if s != [] && IsJsWhitespace(s[0]) then TrimStart(s[1..]) else s
  }

  /** Drops trailing white space: the result is the prefix of `s` that ends at its last
      non-white-space character. */
  function TrimEnd(s: string): (r: string)
    ensures |r| <= |s| && r == s[..|r|]
    ensures AllWhitespace(s[|r|..])
    ensures r == [] || !IsJsWhitespace(r[|r| - 1])
  {
    if s != [] && IsJsWhitespace(s[|s| - 1]) then TrimEnd(s[..|s| - 1]) else s
  }

  /** `s.trim()`. */
  function Trim(s: string): string
  {
    TrimEnd(TrimStart(s))
  }

  /** Trimming text padded with white space on both sides gives back the text, provided it
      neither starts nor ends with white space itself. */
  lemma {:induction false} TrimPadded(before: string, core: string, after: string)
    requires AllWhitespace(before) && AllWhitespace(after)
    requires core == [] || (!IsJsWhitespace(core[0]) && !IsJsWhitespace(core[|core| - 1]))
    ensures Trim(before + core + after) == core
  {
    var padded := before + core + after;
    if core == [] {
      assert padded == before + after;
      StartOfPadded(before, after);
      StartOfPadded(after, []);
      assert after + [] == after;
      assert TrimStart(padded) == [];
    } else {
      assert padded == before + (core + after);
      StartOfPadded(before, core + after);
      assert (core + after)[0] == core[0];
      assert TrimStart(padded) == core + after;
      EndOfPadded(core, after);
    }
  }

  lemma {:induction false} StartOfPadded(ws: string, rest: string)
    requires AllWhitespace(ws)
    requires rest == [] || !IsJsWhitespace(rest[0]) || AllWhitespace(rest)
    ensures TrimStart(ws + rest) == TrimStart(rest)
  {
    if ws != [] {
      assert (ws + rest)[0] == ws[0];
      assert (ws + rest)[1..] == ws[1..] + rest;
      StartOfPadded(ws[1..], rest);
    }
  }

  lemma {:induction false} EndOfPadded(core: string, ws: string)
    requires AllWhitespace(ws)
    requires core != [] && !IsJsWhitespace(core[|core| - 1])
    ensures TrimEnd(core + ws) == core
  {
    if ws == [] {
      assert core + ws == core;
    } else {
      var s := core + ws;
      assert s[|s| - 1] == ws[|ws| - 1];
      assert s[..|s| - 1] == core + ws[..|ws| - 1];
      EndOfPadded(core, ws[..|ws| - 1]);
    }
  }

  /** Lexicographic order on strings by character code. */
  predicate LexLess(a: string, b: string)
  {
    if a == [] then b != []
    else b != [] && (a[0] < b[0] || (a[0] == b[0] && LexLess(a[1..], b[1..])))
  }

  lemma {:induction false} LexLessIrreflexive(a: string)
    ensures !LexLess(a, a)
  {
    if a != [] {
      LexLessIrreflexive(a[1..]);
    }
  }

  lemma {:induction false} LexLessTransitive(a: string, b: string, c: string)
    requires LexLess(a, b) && LexLess(b, c)
    ensures LexLess(a, c)
  {
    if a != [] && a[0] == b[0] && b[0] == c[0] {
      LexLessTransitive(a[1..], b[1..], c[1..]);
    }
  }

  lemma {:induction false} LexLessTotal(a: string, b: string)
    ensures LexLess(a, b) || a == b || LexLess(b, a)
  {
    if a != [] && b != [] && a[0] == b[0] {
      LexLessTotal(a[1..], b[1..]);
      if a[1..] == b[1..] {
        assert a == [a[0]] + a[1..] && b == [b[0]] + b[1..];
      }
    }
  }

  lemma LexLessAsymmetric(a: string, b: string)
    requires LexLess(a, b)
    ensures !LexLess(b, a)
  {
    if LexLess(b, a) {
      LexLessTransitive(a, b, a);
      LexLessIrreflexive(a);
    }
  }

  /** `a.localeCompare(b)` reduced to its sign, for the plain character-code order. */
  function Compare(a: string, b: string): (c: int)
    ensures -1 <= c <= 1
    ensures c < 0 <==> LexLess(a, b)
    ensures c == 0 <==> a == b
    ensures c > 0 <==> LexLess(b, a)
  {
    LexLessTotal(a, b);
    LexLessIrreflexive(a);
    if LexLess(a, b) then LexLessAsymmetric(a, b); -1
    else if a == b then 0
    else 1
  }

  predicate NoDuplicates(xs: seq<string>)
  {
    forall i, j :: 0 <= i < j < |xs| ==> xs[i] != xs[j]
  }

  /** Insertion into an insertion-ordered set kept as a sequence (`Set.prototype.add`). */
  function Add(s: seq<string>, x: string): seq<string>
  {
    if x in s then s else s + [x]
  }

  /** Add is a set insertion that keeps `s` as a prefix and adds no duplicate. */
  lemma AddFacts(s: seq<string>, x: string)
    ensures forall y :: y in Add(s, x) <==> y in s || y == x
    ensures NoDuplicates(s) ==> NoDuplicates(Add(s, x))
    ensures s <= Add(s, x)
  {
  }

  /** Adds every element of `xs` to `s`, in order. */
  function AddAll(s: seq<string>, xs: seq<string>): seq<string>
  {
    if xs == [] then s else Add(AddAll(s, xs[..|xs| - 1]), xs[|xs| - 1])
  }

  /** AddAll is a set union that keeps `s` as a prefix and adds no duplicates. */
  lemma {:induction false} AddAllFacts(s: seq<string>, xs: seq<string>)
    ensures forall y :: y in AddAll(s, xs) <==> y in s || y in xs
    ensures NoDuplicates(s) ==> NoDuplicates(AddAll(s, xs))
    ensures s <= AddAll(s, xs)
  {
    if xs != [] {
      AddAllFacts(s, xs[..|xs| - 1]);
      AddFacts(AddAll(s, xs[..|xs| - 1]), xs[|xs| - 1]);
      assert xs == xs[..|xs| - 1] + [xs[|xs| - 1]];
    }
  }

  /** Adding two batches one after the other is adding their concatenation. */
  lemma {:induction false} AddAllConcat(s: seq<string>, a: seq<string>, b: seq<string>)
    ensures AddAll(s, a + b) == AddAll(AddAll(s, a), b)
  {
    if b == [] {
      assert a + b == a;
    } else {
      assert (a + b)[..|a + b| - 1] == a + b[..|b| - 1];
      AddAllConcat(s, a, b[..|b| - 1]);
    }
  }

  /** The index of the first occurrence of `x` in `xs`, or `|xs|` when there is none. */
  function IndexOf(xs: seq<string>, x: string): (k: nat)
    ensures k <= |xs|
    ensures k < |xs| <==> x in xs
    ensures k < |xs| ==> xs[k] == x
  {
    if xs == [] then 0 else if xs[0] == x then 0 else 1 + IndexOf(xs[1..], x)
  }

  /** No occurrence of `x` comes before the one IndexOf finds. */
  lemma {:induction false} IndexOfIsFirst(xs: seq<string>, x: string, i: nat)
    requires i < IndexOf(xs, x)
    ensures xs[i] != x
  {
    if i > 0 {
      IndexOfIsFirst(xs[1..], x, i - 1);
    }
  }

  /** The elements of `xs` are in the order of their first occurrence in `base`. */
  predicate InFirstOccurrenceOrder(xs: seq<string>, base: seq<string>)
  {
    forall i, j :: 0 <= i < j < |xs| ==> IndexOf(base, xs[i]) < IndexOf(base, xs[j])
  }

  /** The distinct elements of `xs` in first-occurrence order (`[...new Set(xs)]`). */
  function Distinct(xs: seq<string>): seq<string>
  {
    AddAll([], xs)
  }

  /** Distinct keeps every element of `xs` once and nothing else, in first-occurrence order. */
  lemma DistinctFacts(xs: seq<string>)
    ensures forall y :: y in Distinct(xs) <==> y in xs
    ensures NoDuplicates(Distinct(xs))
    ensures InFirstOccurrenceOrder(Distinct(xs), xs)
  {
    AddAllFacts([], xs);
    DistinctOrder(xs);
  }

  lemma {:induction false} DistinctOrder(xs: seq<string>)
    ensures InFirstOccurrenceOrder(AddAll([], xs), xs)
  {
    if xs != [] {
      var init := xs[..|xs| - 1];
      var last := xs[|xs| - 1];
      assert init + [last] == xs;
      var d := AddAll([], init);
      DistinctOrder(init);
      AddAllFacts([], init);
      forall i | 0 <= i < |d|
        ensures IndexOf(xs, d[i]) == IndexOf(init, d[i]) < |init|
      {
        IndexOfPrefix(init, [last], d[i]);
      }
      var r := AddAll([], xs);
      assert r == Add(d, last);
      if last !in d {
        IndexOfPrefix(init, [last], last);
        assert IndexOf(xs, last) == |init|;
        forall i, j | 0 <= i < j < |r|
          ensures IndexOf(xs, r[i]) < IndexOf(xs, r[j])
        {
          if j < |d| {
            assert r[i] == d[i] && r[j] == d[j];
          } else {
            assert r[i] == d[i] && r[j] == last;
          }
        }
      }
    }
  }

  lemma {:induction false} IndexOfPrefix(a: seq<string>, b: seq<string>, x: string)
    ensures x in a ==> IndexOf(a + b, x) == IndexOf(a, x)
    ensures x !in a ==> IndexOf(a + b, x) == |a| + IndexOf(b, x)
  {
    if a != [] {
      assert (a + b)[1..] == a[1..] + b;
      IndexOfPrefix(a[1..], b, x);
    } else {
      assert a + b == b;
    }
  }

  /** `xs` without the elements in `drop`, order kept. */
  function Without(xs: seq<string>, drop: set<string>): seq<string>
  {
    if xs == [] then [] else (if xs[0] in drop then [] else [xs[0]]) + Without(xs[1..], drop)
  }

  /** Dropping every element of `xs` leaves nothing. */
  lemma {:induction false} WithoutAll(xs: seq<string>, drop: set<string>)
    requires forall y :: y in xs ==> y in drop
    ensures Without(xs, drop) == []
  {
    if xs != [] {
      assert xs[0] in xs;
      WithoutAll(xs[1..], drop);
    }
  }

  /** Without keeps exactly the elements of `xs` that are not dropped. */
  lemma {:induction false} WithoutMembers(xs: seq<string>, drop: set<string>)
    ensures forall y :: y in Without(xs, drop) <==> y in xs && y !in drop
  {
    if xs != [] {
      WithoutMembers(xs[1..], drop);
      assert xs == [xs[0]] + xs[1..];
    }
  }

  lemma {:induction false} WithoutKeepsOrder(xs: seq<string>, drop: set<string>, base: seq<string>)
    requires NoDuplicates(xs) && InFirstOccurrenceOrder(xs, base)
    ensures NoDuplicates(Without(xs, drop)) && InFirstOccurrenceOrder(Without(xs, drop), base)
  {
    if xs != [] {
      var tail := xs[1..];
      HeadBeforeTail(xs, base);
      WithoutKeepsOrder(tail, drop, base);
      if xs[0] in drop {
        assert Without(xs, drop) == Without(tail, drop);
      } else {
        WithoutMembers(tail, drop);
        ConsKeepsOrder(xs[0], Without(tail, drop), tail, base);
        assert [xs[0]] + Without(tail, drop) == Without(xs, drop);
      }
    }
  }

  /** The tail of an ordered duplicate-free sequence is ordered, and its head comes before
      every element of the tail. */
  lemma HeadBeforeTail(xs: seq<string>, base: seq<string>)
    requires xs != [] && NoDuplicates(xs) && InFirstOccurrenceOrder(xs, base)
    ensures NoDuplicates(xs[1..]) && InFirstOccurrenceOrder(xs[1..], base)
    ensures forall y :: y in xs[1..] ==> IndexOf(base, xs[0]) < IndexOf(base, y) && xs[0] != y
  {
    var tail := xs[1..];
    forall i, j | 0 <= i < j < |tail| ensures IndexOf(base, tail[i]) < IndexOf(base, tail[j]) && tail[i] != tail[j] {
      assert tail[i] == xs[i + 1] && tail[j] == xs[j + 1];
    }
    forall y | y in tail ensures IndexOf(base, xs[0]) < IndexOf(base, y) && xs[0] != y {
      var k :| 0 <= k < |tail| && tail[k] == y;
      assert tail[k] == xs[k + 1];
    }
  }

  /** `xs` is strictly increasing under `rank`, hence without duplicates. */
  predicate RankedIncreasing(xs: seq<string>, rank: string -> int)
  {
    forall i, j :: 0 <= i < j < |xs| ==> rank(xs[i]) < rank(xs[j]) && xs[i] != xs[j]
  }

  /** Putting in front an element ranked below everything in `tail` keeps a subset of
      `tail` strictly increasing. */
  lemma ConsKeepsRank(x: string, rest: seq<string>, tail: seq<string>, rank: string -> int)
    requires RankedIncreasing(rest, rank)
    requires forall y :: y in rest ==> y in tail
    requires forall y :: y in tail ==> rank(x) < rank(y) && x != y
    ensures RankedIncreasing([x] + rest, rank)
  {
    var r := [x] + rest;
    forall i, j | 0 <= i < j < |r| ensures rank(r[i]) < rank(r[j]) && r[i] != r[j] {
      var y := rest[j - 1];
      assert r[j] == y && y in rest;
      if i > 0 {
        assert r[i] == rest[i - 1];
      }
    }
  }

  /** Putting in front an element that precedes everything in `tail` keeps a subset of
      `tail` ordered and duplicate-free. */
  lemma ConsKeepsOrder(x: string, rest: seq<string>, tail: seq<string>, base: seq<string>)
    requires NoDuplicates(rest) && InFirstOccurrenceOrder(rest, base)
    requires forall y :: y in rest ==> y in tail
    requires forall y :: y in tail ==> IndexOf(base, x) < IndexOf(base, y) && x != y
    ensures NoDuplicates([x] + rest) && InFirstOccurrenceOrder([x] + rest, base)
  {
    var rank := y => IndexOf(base, y);
    ConsKeepsRank(x, rest, tail, rank);
  }

  /** `xs` occurs in `ys` with its order kept (possibly with gaps). */
  predicate IsSubsequence(xs: seq<string>, ys: seq<string>)
  {
    if xs == [] then true
    else if ys == [] then false
    else if xs[0] == ys[0] then IsSubsequence(xs[1..], ys[1..])
    else IsSubsequence(xs, ys[1..])
  }
}
