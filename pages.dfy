/**
 * Page records as `src/lib/pages.js` builds them from content-graph nodes:
 * normalisation (`mapPageData`), the listing chain of `getAllPages`, the
 * top-level filter and menu-order sort of `getTopLevelPages`, the record
 * assembly of `getPageByUri`, and `pagePathBySlug`.
 */
module Pages {
  import opened JsValue
  import opened SeqAlgebra

  /** `pagePathBySlug`: the site path of a page is a slash followed by its slug. */
  function PagePathBySlug(slug: string): (path: string)
    ensures |path| == |slug| + 1 && path[0] == '/' && path[1..] == slug
  {
    "/" + slug
  }

  // ---------------------------------------------------------------------------
  // mapPageData
  // ---------------------------------------------------------------------------

  /** The only fields `mapPageData` may rewrite on its copy. */
  const REWRITTEN: set<string> := {"featuredImage", "parent", "children"}

  /** `edges.map(({ node }) => node)`: destructuring a `null` or `undefined` edge throws. */
  function EdgeNodes(edges: seq<Json>): (r: Result<seq<Json>>)
    ensures r.Ok? <==> forall i :: 0 <= i < |edges| ==> !Nullish(edges[i])
    ensures r.Ok? ==> |r.value| == |edges|
    ensures r.Ok? ==> forall i :: 0 <= i < |edges| ==> r.value[i] == Get(edges[i], "node")
    decreases |edges|
  {
    if edges == [] then Ok([])
    else if Nullish(edges[0]) then TypeError
    else
      var rest := EdgeNodes(edges[1..]);
      assert rest.TypeError? ==> exists i :: 0 <= i < |edges| && Nullish(edges[i]) by {
        if rest.TypeError? {
          var i :| 0 <= i < |edges[1..]| && Nullish(edges[1..][i]);
          assert Nullish(edges[i + 1]);
        }
      }
      if rest.TypeError? then TypeError else Ok([Get(edges[0], "node")] + rest.value)
  }

  /** The value a field keeps on the copy: a truthy `featuredImage` or `parent` is replaced by its `.node`. */
  function Unwrapped(k: string, v: Json): Json {
    if (k == "featuredImage" || k == "parent") && Truthy(v) then Get(v, "node") else v
  }

  /** The edges of a truthy `children` field, or nothing when `children.edges` is not an array. */
  predicate ChildEdgesMalformed(children: Json) {
    var edges := Get(children, "edges");
    !edges.Arr? || exists i :: 0 <= i < |edges.items| && Nullish(edges.items[i])
  }

  /**
   * The record `mapPageData(page)` returns, defined key by key: each own field of
   * `page`, where a truthy `featuredImage` or `parent` becomes its `.node` and a
   * truthy `children` becomes the list of the nodes of `children.edges`.
   */
  function NormalizedPage(page: Json): (r: Result<Record>)
    ensures var children := Field(Spread(page), "children");
      r.TypeError? <==> Truthy(children) && ChildEdgesMalformed(children)
    ensures r.Ok? ==> r.value.Keys == Spread(page).Keys
  {
    NormalizedRecord(Spread(page))
  }

  /**
   * The copy has exactly the node's own fields; only `featuredImage`, `parent`
   * and `children` may differ from the node's, and only when truthy.
   */
  lemma NormalizedPageShape(page: Json)
    requires NormalizedPage(page).Ok?
    ensures var data, r := Spread(page), NormalizedPage(page).value;
      && r.Keys == data.Keys
      && (forall k :: k in data && k !in REWRITTEN ==> r[k] == data[k])
      && (forall k :: k in data && k in REWRITTEN && !Truthy(data[k]) ==> r[k] == data[k])
      && (Truthy(Field(data, "featuredImage")) ==> r["featuredImage"] == Get(data["featuredImage"], "node"))
      && (Truthy(Field(data, "parent")) ==> r["parent"] == Get(data["parent"], "node"))
    ensures var data, r := Spread(page), NormalizedPage(page).value;
      Truthy(Field(data, "children")) ==>
        var edges := Get(data["children"], "edges").items;
        && r["children"].Arr?
        && |r["children"].items| == |edges|
        && forall i :: 0 <= i < |edges| ==> r["children"].items[i] == Get(edges[i], "node")
  {
  }

  /** Every field of the copy after the `featuredImage` and `parent` reassignments. */
  function UnwrapAll(data: Record): Record {
    map k | k in data :: Unwrapped(k, data[k])
  }

  /** `mapPageData` after the spread, on the copy `data`. */
  function NormalizedRecord(data: Record): Result<Record> {
    var children := Field(data, "children");
    if Truthy(children) then
      var edges := Get(children, "edges");
      if !edges.Arr? then TypeError  // `.map` of something that is not an array
      else
        var nodes :- EdgeNodes(edges.items);
        Ok(UnwrapAll(data)["children" := Arr(nodes)])
    else
      Ok(UnwrapAll(data))
  }

  /**
   * `mapPageData`: copy the node's own fields, then reassign the three wrapped
   * fields on the copy, one after the other.
   */
  method MapPageData(page: Json) returns (r: Result<Record>)
    ensures r == NormalizedPage(page)
  {
    var data := Spread(page);
    ghost var copy := data;
    if Truthy(Field(data, "featuredImage")) {
      data := data["featuredImage" := Get(data["featuredImage"], "node")];
    }
    if Truthy(Field(data, "parent")) {
      data := data["parent" := Get(data["parent"], "node")];
    }
    UnwrapsInPlace(copy);
    assert Field(data, "children") == Field(copy, "children");
    if Truthy(Field(data, "children")) {
      var edges := Get(data["children"], "edges");
      if !edges.Arr? {
        return TypeError;
      }
      var nodes :- EdgeNodes(edges.items);
      data := data["children" := Arr(nodes)];
    }
    r := Ok(data);
  }

  /** The two conditional reassignments of `featuredImage` and `parent`, one after the other, unwrap both. */
  lemma UnwrapsInPlace(copy: Record)
    ensures var afterImage := if Truthy(Field(copy, "featuredImage")) then copy["featuredImage" := Get(copy["featuredImage"], "node")] else copy;
      var afterParent := if Truthy(Field(afterImage, "parent")) then afterImage["parent" := Get(afterImage["parent"], "node")] else afterImage;
      afterParent == UnwrapAll(copy)
  {
    assert "featuredImage" != "parent";
  }

  // ---------------------------------------------------------------------------
  // getAllPages
  // ---------------------------------------------------------------------------

  /** `({ node = {} }) => node` on a non-nullish edge: the default applies only to `undefined`. */
  function EdgeNode(edge: Json): Json {
    var node := Get(edge, "node");
    if node.Undefined? then Obj(map[]) else node
  }

  /** The first `.map` of `getAllPages`. */
  function NodesWithDefault(edges: seq<Json>): (r: Result<seq<Json>>)
    ensures r.Ok? <==> forall i :: 0 <= i < |edges| ==> !Nullish(edges[i])
    ensures r.Ok? ==> |r.value| == |edges| && forall i :: 0 <= i < |edges| ==> r.value[i] == EdgeNode(edges[i])
    decreases |edges|
  {
    if edges == [] then Ok([])
    else if Nullish(edges[0]) then TypeError
    else
      var rest := NodesWithDefault(edges[1..]);
      assert rest.TypeError? ==> exists i :: 0 <= i < |edges| && Nullish(edges[i]) by {
        if rest.TypeError? {
          var i :| 0 <= i < |edges[1..]| && Nullish(edges[1..][i]);
          assert Nullish(edges[i + 1]);
        }
      }
      if rest.TypeError? then TypeError else Ok([EdgeNode(edges[0])] + rest.value)
  }

  /** The second `.map` of `getAllPages`: `mapPageData` on every node. */
  function NormalizeAll(nodes: seq<Json>): (r: Result<seq<Record>>)
    ensures r.Ok? <==> forall i :: 0 <= i < |nodes| ==> NormalizedPage(nodes[i]).Ok?
    ensures r.Ok? ==> |r.value| == |nodes| && forall i :: 0 <= i < |nodes| ==> r.value[i] == NormalizedPage(nodes[i]).value
    decreases |nodes|
  {
    if nodes == [] then Ok([])
    else
      var first := NormalizedPage(nodes[0]);
      var rest := NormalizeAll(nodes[1..]);
      assert rest.TypeError? ==> exists i :: 0 <= i < |nodes| && NormalizedPage(nodes[i]).TypeError? by {
        if rest.TypeError? {
          var i :| 0 <= i < |nodes[1..]| && NormalizedPage(nodes[1..][i]).TypeError?;
          assert nodes[1..][i] == nodes[i + 1];
        }
      }
      if first.TypeError? || rest.TypeError? then TypeError else Ok([first.value] + rest.value)
  }

  /**
   * The page list of `getAllPages` for the edges of its query response:
   * `edges.map(({ node = {} }) => node).map(mapPageData)`.
   */
  function AllPages(edges: seq<Json>): (r: Result<seq<Record>>)
    ensures r.Ok? <==> forall i :: 0 <= i < |edges| ==> !Nullish(edges[i]) && NormalizedPage(EdgeNode(edges[i])).Ok?
    ensures r.Ok? ==> |r.value| == |edges|
    ensures r.Ok? ==> forall i :: 0 <= i < |edges| ==> r.value[i] == NormalizedPage(EdgeNode(edges[i])).value
  {
    var nodes := NodesWithDefault(edges);
    if nodes.TypeError? then TypeError
    else
      assert forall i :: 0 <= i < |edges| ==> nodes.value[i] == EdgeNode(edges[i]);
      NormalizeAll(nodes.value)
  }

  // ---------------------------------------------------------------------------
  // getTopLevelPages
  // ---------------------------------------------------------------------------

  /**
   * `pages.filter(({ parent }) => parent === null)`: exactly the pages whose
   * `parent` is `null`, each as often as in `pages`; a page without a `parent`
   * field (`undefined`) does not pass.
   */
  function TopLevel(pages: seq<Record>): (r: seq<Record>)
    ensures forall p :: multiset(r)[p] == if Field(p, "parent") == Null then multiset(pages)[p] else 0
    ensures forall p :: p in r <==> p in pages && Field(p, "parent") == Null
    decreases |pages|
  {
    if pages == [] then []
    else
      var rest := TopLevel(pages[1..]);
      assert pages == [pages[0]] + pages[1..];
      var r := (if Field(pages[0], "parent") == Null then [pages[0]] else []) + rest;
      assert forall p :: p in r <==> multiset(r)[p] > 0;
      assert forall p :: p in pages <==> multiset(pages)[p] > 0;
      r
  }

  /** The sort key: `menuOrder`, an integer in the content graph. */
  function MenuOrder(p: Record): int {
    match Field(p, "menuOrder")
    case Num(n) => n
    case _ => 0
  }

  /** Ascending by `menuOrder`. */
  predicate Ascending(s: seq<Record>) {
    forall i, j :: 0 <= i < j < |s| ==> MenuOrder(s[i]) <= MenuOrder(s[j])
  }

  /** `t` with `x` placed after every trailing element whose key is greater than `x`'s. */
  function InsertByMenuOrder(t: seq<Record>, x: Record): (r: seq<Record>)
    ensures |r| == |t| + 1
    decreases |t|
  {
    if t == [] || MenuOrder(t[|t| - 1]) <= MenuOrder(x) then t + [x]
    else InsertByMenuOrder(t[..|t| - 1], x) + [t[|t| - 1]]
  }

  /**
   * The stable sort of `s` by `menuOrder` (insertion sort). `Array.prototype.sort`
   * is stable, so with the comparator `a.menuOrder - b.menuOrder` it produces
   * exactly this order.
   */
  function SortByMenuOrder(s: seq<Record>): (r: seq<Record>)
    ensures |r| == |s|
    decreases |s|
  {
    if s == [] then [] else InsertByMenuOrder(SortByMenuOrder(s[..|s| - 1]), s[|s| - 1])
  }

  /** The elements of `s` whose key is `k`, in their order in `s`. */
  function WithMenuOrder(s: seq<Record>, k: int): seq<Record>
    decreases |s|
  {
    if s == [] then []
    else WithMenuOrder(s[..|s| - 1], k) + (if MenuOrder(s[|s| - 1]) == k then [s[|s| - 1]] else [])
  }

  lemma {:induction false} WithMenuOrderAppend(a: seq<Record>, b: seq<Record>, k: int)
    ensures WithMenuOrder(a + b, k) == WithMenuOrder(a, k) + WithMenuOrder(b, k)
    decreases |b|
  {
    if b == [] {
      assert a + b == a;
    } else {
      assert (a + b)[..|a + b| - 1] == a + b[..|b| - 1];
      WithMenuOrderAppend(a, b[..|b| - 1], k);
    }
  }

  lemma {:induction false} InsertPermutes(t: seq<Record>, x: Record)
    ensures multiset(InsertByMenuOrder(t, x)) == multiset(t) + multiset{x}
    decreases |t|
  {
    if t == [] || MenuOrder(t[|t| - 1]) <= MenuOrder(x) {
    } else {
      InsertPermutes(t[..|t| - 1], x);
      assert t == t[..|t| - 1] + [t[|t| - 1]];
    }
  }

  lemma {:induction false} InsertAscending(t: seq<Record>, x: Record)
    requires Ascending(t)
    ensures Ascending(InsertByMenuOrder(t, x))
    decreases |t|
  {
    if t == [] || MenuOrder(t[|t| - 1]) <= MenuOrder(x) {
      AscendingSnoc(t, x);
    } else {
      var init, last := t[..|t| - 1], t[|t| - 1];
      assert Ascending(init);
      InsertAscending(init, x);
      InsertPermutes(init, x);
      var u := InsertByMenuOrder(init, x);
      forall i | 0 <= i < |u|
        ensures MenuOrder(u[i]) <= MenuOrder(last)
      {
        var y := u[i];
        assert y in multiset(init) + multiset{x};
        if y != x {
          assert y in init;
          var j :| 0 <= j < |init| && init[j] == y;
          assert t[j] == y;
        }
      }
      AscendingSnoc(u, last);
    }
  }

  /** Appending a page whose key is at least every key keeps a sequence ascending. */
  lemma AscendingSnoc(u: seq<Record>, last: Record)
    requires Ascending(u)
    requires forall i :: 0 <= i < |u| ==> MenuOrder(u[i]) <= MenuOrder(last)
    ensures Ascending(u + [last])
  {
    var w := u + [last];
    forall i, j | 0 <= i < j < |w|
      ensures MenuOrder(w[i]) <= MenuOrder(w[j])
    {
      assert w[i] == u[i];
      if j < |u| {
        assert w[j] == u[j];
      }
    }
  }

  lemma WithMenuOrderSingleton(x: Record, k: int)
    ensures WithMenuOrder([x], k) == if MenuOrder(x) == k then [x] else []
  {
    assert [x][..0] == [];
  }

  /** Of two pages with different keys at most one has key `k`, so their filtered singletons commute. */
  lemma DistinctKeysCommute(x: Record, y: Record, k: int)
    requires MenuOrder(x) != MenuOrder(y)
    ensures WithMenuOrder([x], k) + WithMenuOrder([y], k) == WithMenuOrder([y], k) + WithMenuOrder([x], k)
  {
    WithMenuOrderSingleton(x, k);
    WithMenuOrderSingleton(y, k);
  }

  lemma {:induction false} InsertKeepsTies(t: seq<Record>, x: Record, k: int)
    ensures WithMenuOrder(InsertByMenuOrder(t, x), k) == WithMenuOrder(t, k) + WithMenuOrder([x], k)
    decreases |t|
  {
    if t == [] || MenuOrder(t[|t| - 1]) <= MenuOrder(x) {
      WithMenuOrderAppend(t, [x], k);
    } else {
      var init, last := t[..|t| - 1], t[|t| - 1];
      var u := InsertByMenuOrder(init, x);
      var mi, mx, ml := WithMenuOrder(init, k), WithMenuOrder([x], k), WithMenuOrder([last], k);
      assert t == init + [last];
      assert InsertByMenuOrder(t, x) == u + [last];
      InsertKeepsTies(init, x, k);
      WithMenuOrderAppend(u, [last], k);
      assert WithMenuOrder(InsertByMenuOrder(t, x), k) == (mi + mx) + ml;
      DistinctKeysCommute(x, last, k);
      AppendAssociates(mi, mx, ml);
      AppendAssociates(mi, ml, mx);
      WithMenuOrderAppend(init, [last], k);
      assert WithMenuOrder(t, k) == mi + ml;
    }
  }

  /** The sort returns its input ascending by `menuOrder`. */
  lemma {:induction false} SortAscending(s: seq<Record>)
    ensures Ascending(SortByMenuOrder(s))
    decreases |s|
  {
    if s != [] {
      SortAscending(s[..|s| - 1]);
      InsertAscending(SortByMenuOrder(s[..|s| - 1]), s[|s| - 1]);
    }
  }

  /** The sort returns a permutation of its input. */
  lemma {:induction false} SortPermutes(s: seq<Record>)
    ensures multiset(SortByMenuOrder(s)) == multiset(s)
    decreases |s|
  {
    if s != [] {
      SortPermutes(s[..|s| - 1]);
      InsertPermutes(SortByMenuOrder(s[..|s| - 1]), s[|s| - 1]);
      assert s == s[..|s| - 1] + [s[|s| - 1]];
    }
  }

  /** The sort is stable: pages with equal `menuOrder` keep their relative order. */
  lemma {:induction false} SortStable(s: seq<Record>, k: int)
    ensures WithMenuOrder(SortByMenuOrder(s), k) == WithMenuOrder(s, k)
    decreases |s|
  {
    if s != [] {
      SortStable(s[..|s| - 1], k);
      InsertKeepsTies(SortByMenuOrder(s[..|s| - 1]), s[|s| - 1], k);
      WithMenuOrderSingleton(s[|s| - 1], k);
    }
  }

  /** The `parent === null` filter keeps the listing order: it distributes over concatenation. */
  lemma {:induction false} TopLevelAppend(a: seq<Record>, b: seq<Record>)
    ensures TopLevel(a + b) == TopLevel(a) + TopLevel(b)
    decreases |a|
  {
    if a == [] {
      assert a + b == b;
    } else {
      assert (a + b)[1..] == a[1..] + b;
      TopLevelAppend(a[1..], b);
    }
  }

  /**
   * Among the top-level pages with one `menuOrder`, the sorted list keeps the
   * listing order: they are the `parent === null` pages of that key, in order.
   */
  lemma TopLevelStable(pages: seq<Record>, k: int)
    ensures WithMenuOrder(SortByMenuOrder(TopLevel(pages)), k) == TopLevel(WithMenuOrder(pages, k))
  {
    SortStable(TopLevel(pages), k);
    FiltersCommute(pages, k);
  }

  lemma {:induction false} FiltersCommute(pages: seq<Record>, k: int)
    ensures WithMenuOrder(TopLevel(pages), k) == TopLevel(WithMenuOrder(pages, k))
    decreases |pages|
  {
    if pages != [] {
      var x, rest := pages[0], pages[1..];
      assert pages == [x] + rest;
      FiltersCommute(rest, k);
      FiltersCommuteSingleton(x, k);
      TopLevelAppend([x], rest);
      WithMenuOrderAppend(TopLevel([x]), TopLevel(rest), k);
      WithMenuOrderAppend([x], rest, k);
      TopLevelAppend(WithMenuOrder([x], k), WithMenuOrder(rest, k));
    }
  }

  lemma FiltersCommuteSingleton(x: Record, k: int)
    ensures WithMenuOrder(TopLevel([x]), k) == TopLevel(WithMenuOrder([x], k))
  {
    WithMenuOrderSingleton(x, k);
    assert TopLevel([x]) == (if Field(x, "parent") == Null then [x] else []) + TopLevel([]);
    assert WithMenuOrder([], k) == [];
  }

  /** `navPages.sort(...)`: stable insertion sort of the array in place. */
  method SortInPlace(a: array<Record>)
    modifies a
    ensures a[..] == SortByMenuOrder(old(a[..]))
  {
    ghost var original := a[..];
    var i := 0;
    while i < a.Length
      invariant 0 <= i <= a.Length
      invariant a[..] == SortByMenuOrder(original[..i]) + original[i..]
    {
      SortedPrefixParts(original, i, a[..]);
      SortPrefixStep(original, i);
      InsertAt(a, i);
      i := i + 1;
    }
    assert original[..a.Length] == original;
  }

  /** Moves `a[i]` left past the greater keys of the sorted prefix `a[..i]`. */
  method InsertAt(a: array<Record>, i: int)
    requires 0 <= i < a.Length
    modifies a
    ensures a[..] == InsertByMenuOrder(old(a[..i]), old(a[i])) + old(a[i + 1..])
  {
    ghost var sorted := a[..i];
    ghost var rest := a[i + 1..];
    var x := a[i];
    assert a[..] == sorted + [x] + rest;
    var j := i;
    assert sorted[..j] == sorted && sorted[j..] == [];
    while j > 0 && MenuOrder(a[j - 1]) > MenuOrder(x)
      invariant 0 <= j <= i
      invariant a[..] == sorted[..j] + [x] + sorted[j..] + rest
      invariant forall k :: j <= k < i ==> MenuOrder(sorted[k]) > MenuOrder(x)
    {
      SwapDown(a, j, sorted, x, rest);
      j := j - 1;
    }
    InsertBeforeGreater(sorted, x, j);
  }

  /** One step of the insertion: `x` at place `j` trades places with its left neighbour. */
  method SwapDown(a: array<Record>, j: int, ghost sorted: seq<Record>, x: Record, ghost rest: seq<Record>)
    requires 0 < j <= |sorted|
    requires a[..] == sorted[..j] + [x] + sorted[j..] + rest
    modifies a
    ensures a[..] == sorted[..j - 1] + [x] + sorted[j - 1..] + rest
    ensures old(a[j - 1]) == sorted[j - 1]
  {
    SwapStep(sorted, x, rest, j, a[..]);
    a[j - 1], a[j] := x, a[j - 1];
  }

  /**
   * Inserting `x` into a sequence places it after the last element whose key is
   * not greater, when all later keys are greater.
   */
  lemma {:induction false} InsertBeforeGreater(sorted: seq<Record>, x: Record, j: int)
    requires 0 <= j <= |sorted|
    requires j == 0 || MenuOrder(sorted[j - 1]) <= MenuOrder(x)
    requires forall k :: j <= k < |sorted| ==> MenuOrder(sorted[k]) > MenuOrder(x)
    ensures InsertByMenuOrder(sorted, x) == sorted[..j] + [x] + sorted[j..]
    decreases |sorted|
  {
    if j == |sorted| {
      assert sorted[..j] == sorted;
    } else {
      var init := sorted[..|sorted| - 1];
      InsertBeforeGreater(init, x, j);
      assert init[..j] == sorted[..j];
      assert sorted[j..] == init[j..] + [sorted[|sorted| - 1]];
    }
  }

  /** Swapping `x` with its left neighbour moves the gap one place left. */
  lemma SwapStep(sorted: seq<Record>, x: Record, rest: seq<Record>, j: int, cur: seq<Record>)
    requires 0 < j <= |sorted|
    requires cur == sorted[..j] + [x] + sorted[j..] + rest
    ensures cur[j - 1] == sorted[j - 1] && cur[j] == x
    ensures cur[j - 1 := x][j := sorted[j - 1]] == sorted[..j - 1] + [x] + sorted[j - 1..] + rest
  {
    assert sorted[..j] == sorted[..j - 1] + [sorted[j - 1]];
    assert sorted[j - 1..] == [sorted[j - 1]] + sorted[j..];
  }

  /** The array during the sort: its first `i` places hold the sorted prefix, the rest is untouched. */
  lemma SortedPrefixParts(original: seq<Record>, i: int, cur: seq<Record>)
    requires 0 <= i < |original|
    requires cur == SortByMenuOrder(original[..i]) + original[i..]
    ensures cur[..i] == SortByMenuOrder(original[..i]) && cur[i] == original[i] && cur[i + 1..] == original[i + 1..]
  {
    var sorted := SortByMenuOrder(original[..i]);
    assert |sorted| == i;
    assert cur[..i] == sorted;
    assert cur[i..] == original[i..];
  }

  /** Sorting one more element of the input is inserting it into the sorted prefix. */
  lemma SortPrefixStep(original: seq<Record>, i: int)
    requires 0 <= i < |original|
    ensures SortByMenuOrder(original[..i + 1]) == InsertByMenuOrder(SortByMenuOrder(original[..i]), original[i])
  {
    assert original[..i + 1][..i] == original[..i];
  }

  /**
   * `getTopLevelPages` on the edges of a listing response: the pages whose
   * `parent` is `null`, sorted ascending and stably by `menuOrder`.
   */
  method GetTopLevelPages(edges: seq<Json>) returns (r: Result<seq<Record>>)
    ensures r.TypeError? <==> AllPages(edges).TypeError?
    ensures r.Ok? ==> r.value == SortByMenuOrder(TopLevel(AllPages(edges).value))
    ensures r.Ok? ==> Ascending(r.value)
    ensures r.Ok? ==> forall p :: multiset(r.value)[p] == if Field(p, "parent") == Null then multiset(AllPages(edges).value)[p] else 0
    ensures r.Ok? ==> forall k :: WithMenuOrder(r.value, k) == TopLevel(WithMenuOrder(AllPages(edges).value, k))
  {
    var all := AllPages(edges);
    if all.TypeError? {
      return TypeError;
    }
    var navPages := TopLevel(all.value);
    var sorted := SortedCopy(navPages);
    SortedTopLevel(all.value);
    forall k
      ensures WithMenuOrder(sorted, k) == TopLevel(WithMenuOrder(all.value, k))
    {
      TopLevelStable(all.value, k);
    }
    r := Ok(sorted);
  }

  /** `navPages.sort(...)` on a fresh array holding the filtered pages. */
  method SortedCopy(navPages: seq<Record>) returns (sorted: seq<Record>)
    ensures sorted == SortByMenuOrder(navPages)
  {
    var a := new Record[|navPages|](i requires 0 <= i < |navPages| => navPages[i]);
    assert a[..] == navPages;
    SortInPlace(a);
    sorted := a[..];
  }

  /** The sorted top-level pages: ascending, and exactly the pages with a `null` parent. */
  lemma SortedTopLevel(pages: seq<Record>)
    ensures Ascending(SortByMenuOrder(TopLevel(pages)))
    ensures forall p :: multiset(SortByMenuOrder(TopLevel(pages)))[p] == if Field(p, "parent") == Null then multiset(pages)[p] else 0
  {
    SortAscending(TopLevel(pages));
    SortPermutes(TopLevel(pages));
  }

  // ---------------------------------------------------------------------------
  // getPageByUri: assembling the page record
  // ---------------------------------------------------------------------------

  /** `rawPage.pocetnastranafields ?? {}` */
  function AcfSource(rawPage: Json): (acfFields: Json)
    ensures !Nullish(acfFields)
    ensures !Nullish(Get(rawPage, "pocetnastranafields")) ==> acfFields == Get(rawPage, "pocetnastranafields")
    ensures Nullish(Get(rawPage, "pocetnastranafields")) ==> acfFields == Obj(map[])
  {
    var fields := Get(rawPage, "pocetnastranafields");
    if Nullish(fields) then Obj(map[]) else fields
  }

  /** `acfFields.heroImage?.node?.sourceUrl` */
  function HeroImageUrl(acfFields: Json): (url: Json)
    ensures !url.Undefined? ==> Get(acfFields, "heroImage").Obj? && Get(Get(acfFields, "heroImage"), "node").Obj?
    ensures var img := Get(acfFields, "heroImage");
      img.Obj? && Get(img, "node").Obj? ==> url == Field(Get(img, "node").fields, "sourceUrl")
  {
    Get(Get(Get(acfFields, "heroImage"), "node"), "sourceUrl")
  }

  /**
   * The `acf` object: the custom-field block's own fields, with `heroImage`
   * replaced by `{ sourceUrl }` when the nested URL is truthy and by `{}` otherwise.
   */
  function AcfBlock(acfFields: Json): (acf: Record)
    ensures acf.Keys == Spread(acfFields).Keys + {"heroImage"}
    ensures forall k :: k in Spread(acfFields) && k != "heroImage" ==> acf[k] == Spread(acfFields)[k]
    ensures Truthy(HeroImageUrl(acfFields)) ==> acf["heroImage"] == Obj(map["sourceUrl" := HeroImageUrl(acfFields)])
    ensures !Truthy(HeroImageUrl(acfFields)) ==> acf["heroImage"] == Obj(map[])
  {
    var url := HeroImageUrl(acfFields);
    Spread(acfFields)["heroImage" := if Truthy(url) then Obj(map["sourceUrl" := url]) else Obj(map[])]
  }

  /** `const { seo = {} } = seoData.page || {};` */
  function SeoBlock(seoPage: Json): (seo: Json)
    ensures !seo.Undefined?
    ensures !Truthy(seoPage) ==> seo == Obj(map[])
    ensures Truthy(seoPage) && !Get(seoPage, "seo").Undefined? ==> seo == Get(seoPage, "seo")
    ensures Truthy(seoPage) && Get(seoPage, "seo").Undefined? ==> seo == Obj(map[])
    ensures Nullish(seo) <==> Truthy(seoPage) && Get(seoPage, "seo").Null?
  {
    var holder := if Truthy(seoPage) then seoPage else Obj(map[]);
    var seo := Get(holder, "seo");
    if seo.Undefined? then Obj(map[]) else seo
  }

  /** The fields the SEO step always assigns when it runs. */
  const SEO_FIELDS: set<string> := {"metaTitle", "description", "readingTime", "og", "robots", "twitter"}

  /** `canonical` and `acf` are not among the SEO fields. */
  lemma SeoFieldNames()
    ensures "canonical" !in SEO_FIELDS && "acf" !in SEO_FIELDS
    ensures "canonical" !in {"og", "robots", "twitter"} && "canonical" !in {"metaTitle", "description", "readingTime"}
    ensures {"metaTitle", "description", "readingTime"} !! {"og", "robots", "twitter"}
  {
    assert "canonical"[0] != "metaTitle"[0];
    assert "readingTime"[0] != "description"[0];
  }

  const OPEN_GRAPH_FIELDS: set<string> :=
    {"author", "description", "image", "modifiedTime", "publishedTime", "publisher", "title", "type"}
  const ROBOTS_FIELDS: set<string> := {"nofollow", "noindex"}
  const TWITTER_FIELDS: set<string> := {"description", "image", "title"}

  /**
   * `page.og`: an object with the eight Open Graph fields, each read from the SEO
   * block (`undefined` where the block lacks it; never a value of its own).
   */
  function OpenGraph(seo: Json): (og: Json)
    ensures og.Obj? && forall k :: k in og.fields <==> k in OPEN_GRAPH_FIELDS
    ensures forall k :: k in og.fields ==> og.fields[k].Undefined? || (seo.Obj? && og.fields[k] in seo.fields.Values)
    ensures og.fields["author"] == Get(seo, "opengraphAuthor")
    ensures og.fields["description"] == Get(seo, "opengraphDescription")
    ensures og.fields["image"] == Get(seo, "opengraphImage")
    ensures og.fields["modifiedTime"] == Get(seo, "opengraphModifiedTime")
    ensures og.fields["publishedTime"] == Get(seo, "opengraphPublishedTime")
    ensures og.fields["publisher"] == Get(seo, "opengraphPublisher")
    ensures og.fields["title"] == Get(seo, "opengraphTitle")
    ensures og.fields["type"] == Get(seo, "opengraphType")
  {
    Obj(map[
      "author" := Get(seo, "opengraphAuthor"),
      "description" := Get(seo, "opengraphDescription"),
      "image" := Get(seo, "opengraphImage"),
      "modifiedTime" := Get(seo, "opengraphModifiedTime"),
      "publishedTime" := Get(seo, "opengraphPublishedTime"),
      "publisher" := Get(seo, "opengraphPublisher"),
      "title" := Get(seo, "opengraphTitle"),
      "type" := Get(seo, "opengraphType")])
  }

  /** `page.robots`: `nofollow` and `noindex`, each read from the SEO block. */
  function Robots(seo: Json): (robots: Json)
    ensures robots.Obj? && forall k :: k in robots.fields <==> k in ROBOTS_FIELDS
    ensures forall k :: k in robots.fields ==> robots.fields[k].Undefined? || (seo.Obj? && robots.fields[k] in seo.fields.Values)
    ensures robots.fields["nofollow"] == Get(seo, "metaRobotsNofollow")
    ensures robots.fields["noindex"] == Get(seo, "metaRobotsNoindex")
  {
    Obj(map["nofollow" := Get(seo, "metaRobotsNofollow"), "noindex" := Get(seo, "metaRobotsNoindex")])
  }

  /** `page.twitter`: `description`, `image` and `title`, each read from the SEO block. */
  function Twitter(seo: Json): (twitter: Json)
    ensures twitter.Obj? && forall k :: k in twitter.fields <==> k in TWITTER_FIELDS
    ensures forall k :: k in twitter.fields ==> twitter.fields[k].Undefined? || (seo.Obj? && twitter.fields[k] in seo.fields.Values)
    ensures twitter.fields["description"] == Get(seo, "twitterDescription")
    ensures twitter.fields["image"] == Get(seo, "twitterImage")
    ensures twitter.fields["title"] == Get(seo, "twitterTitle")
  {
    Obj(map[
      "description" := Get(seo, "twitterDescription"),
      "image" := Get(seo, "twitterImage"),
      "title" := Get(seo, "twitterTitle")])
  }

  /**
   * `seo.canonical && !seo.canonical.includes(apiHost)`: the canonical URL is kept
   * only when it is truthy and does not mention the API host; a truthy value with
   * no `includes` method throws.
   */
  function KeepsCanonical(canonical: Json, apiHost: string): (r: Result<bool>)
    ensures r.TypeError? <==> Truthy(canonical) && !canonical.Str? && !canonical.Arr?
    ensures r == Ok(true) <==>
      && Truthy(canonical)
      && (canonical.Str? ==> !Contains(canonical.s, apiHost))
      && (canonical.Arr? ==> Str(apiHost) !in canonical.items)
      && (canonical.Str? || canonical.Arr?)
  {
    if !Truthy(canonical) then Ok(false)
    else
      var included :- Includes(canonical, apiHost);
      Ok(!included)
  }

  /** `page.metaTitle`, `page.description` and `page.readingTime` from the SEO block. */
  function WithSeoText(page: Record, seo: Json): (r: Record)
    ensures r.Keys == page.Keys + {"metaTitle", "description", "readingTime"}
    ensures forall k :: k in page && k !in {"metaTitle", "description", "readingTime"} ==> r[k] == page[k]
    ensures r["metaTitle"] == Get(seo, "title") && r["description"] == Get(seo, "metaDesc") && r["readingTime"] == Get(seo, "readingTime")
  {
    page["metaTitle" := Get(seo, "title")]["description" := Get(seo, "metaDesc")]["readingTime" := Get(seo, "readingTime")]
  }

  /** `page.og`, `page.robots` and `page.twitter` from the SEO block. */
  function WithSeoSocial(page: Record, seo: Json): (r: Record)
    ensures r.Keys == page.Keys + {"og", "robots", "twitter"}
    ensures forall k :: k in page && k !in {"og", "robots", "twitter"} ==> r[k] == page[k]
    ensures r["og"] == OpenGraph(seo) && r["robots"] == Robots(seo) && r["twitter"] == Twitter(seo)
  {
    var og, robots, twitter := OpenGraph(seo), Robots(seo), Twitter(seo);
    page["og" := og]["robots" := robots]["twitter" := twitter]
  }

  /** The record after the SEO assignments, once the canonical test has decided whether to keep the URL. */
  function SeoMerged(page: Record, seo: Json, keep: bool): Record {
    var titled := WithSeoText(page, seo);
    WithSeoSocial(if keep then titled["canonical" := Get(seo, "canonical")] else titled, seo)
  }

  /** The SEO step: assign title, description, reading time, canonical (by the rule above), og, robots and twitter. */
  function MergeSeo(page: Record, seo: Json, apiHost: string): (r: Result<Record>)
    ensures r.TypeError? <==> Nullish(seo) || KeepsCanonical(Get(seo, "canonical"), apiHost).TypeError?
  {
    if Nullish(seo) then TypeError  // `seo.title` on `null`
    else
      var keep :- KeepsCanonical(Get(seo, "canonical"), apiHost);
      Ok(SeoMerged(page, seo, keep))
  }

  lemma SeoMergedKeys(page: Record, seo: Json, keep: bool)
    ensures SeoMerged(page, seo, keep).Keys == page.Keys + SEO_FIELDS + (if keep then {"canonical"} else {})
  {
    var titled := WithSeoText(page, seo);
    var canonical := if keep then titled["canonical" := Get(seo, "canonical")] else titled;
    var text, social := {"metaTitle", "description", "readingTime"}, {"og", "robots", "twitter"};
    assert SEO_FIELDS == text + social;
    assert canonical.Keys == page.Keys + text + (if keep then {"canonical"} else {});
  }

  lemma SeoMergedKeeps(page: Record, seo: Json, keep: bool, k: string)
    requires k in page && k !in SEO_FIELDS && k != "canonical"
    ensures k in SeoMerged(page, seo, keep) && SeoMerged(page, seo, keep)[k] == page[k]
  {
    var titled := WithSeoText(page, seo);
    var canonical := if keep then titled["canonical" := Get(seo, "canonical")] else titled;
    assert k !in {"og", "robots", "twitter"} && k !in {"metaTitle", "description", "readingTime"};
    assert canonical[k] == titled[k];
  }

  lemma SeoMergedValues(page: Record, seo: Json, keep: bool)
    ensures var p := SeoMerged(page, seo, keep);
      && SEO_FIELDS <= p.Keys
      && p["metaTitle"] == Get(seo, "title")
      && p["description"] == Get(seo, "metaDesc")
      && p["readingTime"] == Get(seo, "readingTime")
      && p["og"] == OpenGraph(seo)
      && p["robots"] == Robots(seo)
      && p["twitter"] == Twitter(seo)
      && Field(p, "canonical") == if keep then Get(seo, "canonical") else Field(page, "canonical")
  {
    SeoFieldNames();
    var titled := WithSeoText(page, seo);
    var canonical := if keep then titled["canonical" := Get(seo, "canonical")] else titled;
    var p := WithSeoSocial(canonical, seo);
    assert p["metaTitle"] == canonical["metaTitle"] == titled["metaTitle"];
    assert p["description"] == canonical["description"] == titled["description"];
    assert p["readingTime"] == canonical["readingTime"] == titled["readingTime"];
    assert Field(p, "canonical") == Field(canonical, "canonical");
    assert Field(titled, "canonical") == Field(page, "canonical");
  }

  /** The SEO step adds the SEO fields, adds `canonical` only under the canonical rule, and keeps every other field. */
  lemma MergeSeoKeys(page: Record, seo: Json, apiHost: string)
    requires MergeSeo(page, seo, apiHost).Ok?
    ensures var keep := KeepsCanonical(Get(seo, "canonical"), apiHost) == Ok(true);
      var p := MergeSeo(page, seo, apiHost).value;
      && p.Keys == page.Keys + SEO_FIELDS + (if keep then {"canonical"} else {})
      && forall k :: k in page && k !in SEO_FIELDS && k != "canonical" ==> p[k] == page[k]
  {
    var keep := KeepsCanonical(Get(seo, "canonical"), apiHost) == Ok(true);
    assert MergeSeo(page, seo, apiHost).value == SeoMerged(page, seo, keep);
    SeoMergedKeys(page, seo, keep);
    forall k | k in page && k !in SEO_FIELDS && k != "canonical"
      ensures SeoMerged(page, seo, keep)[k] == page[k]
    {
      SeoMergedKeeps(page, seo, keep, k);
    }
  }

  /** The SEO fields take their values from the SEO block; `canonical` is the block's when the rule keeps it. */
  lemma MergeSeoValues(page: Record, seo: Json, apiHost: string)
    requires MergeSeo(page, seo, apiHost).Ok?
    ensures var keep := KeepsCanonical(Get(seo, "canonical"), apiHost) == Ok(true);
      var p := MergeSeo(page, seo, apiHost).value;
      && SEO_FIELDS <= p.Keys
      && p["metaTitle"] == Get(seo, "title")
      && p["description"] == Get(seo, "metaDesc")
      && p["readingTime"] == Get(seo, "readingTime")
      && p["og"] == OpenGraph(seo)
      && p["robots"] == Robots(seo)
      && p["twitter"] == Twitter(seo)
      && Field(p, "canonical") == if keep then Get(seo, "canonical") else Field(page, "canonical")
  {
    var keep := KeepsCanonical(Get(seo, "canonical"), apiHost) == Ok(true);
    assert MergeSeo(page, seo, apiHost).value == SeoMerged(page, seo, keep);
    SeoMergedValues(page, seo, keep);
  }

  /** The page record before the SEO step: the normalised node with its `acf` block. */
  function BasePage(rawNode: Json): (r: Result<Record>)
    ensures r.TypeError? <==> NormalizedPage(rawNode).TypeError?
    ensures r.Ok? ==>
      && r.value.Keys == Spread(rawNode).Keys + {"acf"}
      && r.value["acf"] == Obj(AcfBlock(AcfSource(rawNode)))
      && forall k :: k in Spread(rawNode) && k != "acf" ==> r.value[k] == NormalizedPage(rawNode).value[k]
  {
    var mapped :- NormalizedPage(rawNode);
    Ok(mapped["acf" := Obj(AcfBlock(AcfSource(rawNode)))])
  }

  /**
   * The result of `getPageByUri` for the `page` of the first query's response,
   * the SEO flag, the `page` of the SEO query's response and the API host:
   * `None` for `{ page: undefined }`.
   */
  function AssemblePage(rawNode: Json, seoFlag: Json, seoPage: Json, apiHost: string): (r: Result<Option<Record>>)
    ensures !Truthy(rawNode) ==> r == Ok(None)
    ensures Truthy(rawNode) ==> (r.Ok? ==> r.value.Some?)
  {
    if !Truthy(rawNode) then Ok(None)
    else
      var page :- BasePage(rawNode);
      if seoFlag != Bool(true) then Ok(Some(page))
      else
        var withSeo :- MergeSeo(page, SeoBlock(seoPage), apiHost);
        Ok(Some(withSeo))
  }

  /**
   * The assembled record is the normalised node with `acf` added, and with the
   * SEO fields (and a kept `canonical`) added only when the flag is `true`; every
   * field other than `acf` and the SEO fields comes from `mapPageData`.
   */
  lemma AssembledFields(rawNode: Json, seoFlag: Json, seoPage: Json, apiHost: string)
    requires AssemblePage(rawNode, seoFlag, seoPage, apiHost).Ok?
    requires Truthy(rawNode)
    ensures NormalizedPage(rawNode).Ok?
    ensures var p := AssemblePage(rawNode, seoFlag, seoPage, apiHost).value.value;
      && (seoFlag != Bool(true) ==> p.Keys == Spread(rawNode).Keys + {"acf"})
      && (seoFlag == Bool(true) ==>
            var keep := KeepsCanonical(Get(SeoBlock(seoPage), "canonical"), apiHost) == Ok(true);
            p.Keys == Spread(rawNode).Keys + {"acf"} + SEO_FIELDS + (if keep then {"canonical"} else {}))
      && Field(p, "acf") == Obj(AcfBlock(AcfSource(rawNode)))
      && forall k :: k in Spread(rawNode) && k !in SEO_FIELDS && k != "acf" && k != "canonical" ==>
           Field(p, k) == Field(NormalizedPage(rawNode).value, k)
  {
    SeoFieldNames();
    var base := BasePage(rawNode).value;
    var p := AssemblePage(rawNode, seoFlag, seoPage, apiHost).value.value;
    if seoFlag == Bool(true) {
      var seo := SeoBlock(seoPage);
      assert p == MergeSeo(base, seo, apiHost).value;
      MergeSeoKeys(base, seo, apiHost);
    } else {
      assert p == base;
    }
  }

  /** With the SEO flag anything but `true`, the SEO response is not consulted and no field is added but `acf`. */
  lemma SeoOff(rawNode: Json, seoFlag: Json, seoPage: Json, otherSeoPage: Json, apiHost: string)
    requires seoFlag != Bool(true)
    ensures AssemblePage(rawNode, seoFlag, seoPage, apiHost) == AssemblePage(rawNode, seoFlag, otherSeoPage, apiHost)
    ensures AssemblePage(rawNode, seoFlag, seoPage, apiHost).TypeError? <==> Truthy(rawNode) && NormalizedPage(rawNode).TypeError?
    ensures AssemblePage(rawNode, seoFlag, seoPage, apiHost).Ok? && Truthy(rawNode) ==>
      AssemblePage(rawNode, seoFlag, seoPage, apiHost).value.value.Keys == Spread(rawNode).Keys + {"acf"}
  {
  }

  /**
   * For a node that carries none of the SEO field names itself, the assembled
   * record has all of them exactly when the flag is strictly `true`.
   */
  lemma SeoFieldsOnlyWithFlag(rawNode: Json, seoFlag: Json, seoPage: Json, apiHost: string)
    requires AssemblePage(rawNode, seoFlag, seoPage, apiHost).Ok?
    requires Truthy(rawNode)
    requires SEO_FIELDS !! Spread(rawNode).Keys && "acf" !in SEO_FIELDS
    ensures var p := AssemblePage(rawNode, seoFlag, seoPage, apiHost).value.value;
      (SEO_FIELDS <= p.Keys <==> seoFlag == Bool(true)) && (SEO_FIELDS !! p.Keys <==> seoFlag != Bool(true))
  {
    if seoFlag == Bool(true) {
      MergeSeoKeys(BasePage(rawNode).value, SeoBlock(seoPage), apiHost);
    }
  }

  /**
   * With the flag `true`, the SEO fields are read from the SEO block, and the
   * canonical URL is set exactly when it is truthy and does not include the API
   * host; otherwise the record keeps whatever `canonical` the node had.
   */
  lemma SeoOn(rawNode: Json, seoPage: Json, apiHost: string)
    requires Truthy(rawNode) && BasePage(rawNode).Ok?
    ensures var r := AssemblePage(rawNode, Bool(true), seoPage, apiHost);
      var seo := SeoBlock(seoPage);
      && (r.TypeError? <==> Nullish(seo) || KeepsCanonical(Get(seo, "canonical"), apiHost).TypeError?)
      && (r.Ok? ==>
        var p := r.value.value;
        && p["metaTitle"] == Get(seo, "title")
        && p["description"] == Get(seo, "metaDesc")
        && p["readingTime"] == Get(seo, "readingTime")
        && p["og"] == OpenGraph(seo)
        && p["robots"] == Robots(seo)
        && p["twitter"] == Twitter(seo)
        && Field(p, "canonical") ==
             if KeepsCanonical(Get(seo, "canonical"), apiHost) == Ok(true) then Get(seo, "canonical")
             else Field(BasePage(rawNode).value, "canonical"))
  {
    var base := BasePage(rawNode).value;
    var seo := SeoBlock(seoPage);
    if MergeSeo(base, seo, apiHost).Ok? {
      MergeSeoValues(base, seo, apiHost);
    }
  }

  /** A canonical URL that the SEO step sets never contains the API host. */
  lemma CanonicalAvoidsApiHost(rawNode: Json, seoPage: Json, apiHost: string)
    requires AssemblePage(rawNode, Bool(true), seoPage, apiHost).Ok?
    requires Truthy(rawNode) && "canonical" !in Spread(rawNode)
    ensures var p := AssemblePage(rawNode, Bool(true), seoPage, apiHost).value.value;
      "canonical" in p ==> p["canonical"].Str? ==> !Contains(p["canonical"].s, apiHost)
  {
    SeoOn(rawNode, seoPage, apiHost);
    var seo := SeoBlock(seoPage);
    if KeepsCanonical(Get(seo, "canonical"), apiHost) != Ok(true) {
      assert Field(BasePage(rawNode).value, "canonical") == Undefined;
    }
  }
}
