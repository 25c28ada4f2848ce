/**
 * `getBreadcrumbsByUri`: the ancestor trail of a page, rebuilt from a flat list
 * of page records by looking up every proper prefix of the page's URI.
 */
module Breadcrumbs {
  import opened JsValue
  import opened SeqAlgebra
  import Pages

  // ---------------------------------------------------------------------------
  // URI segments: `uri.split('/').filter((segment) => segment !== '')`
  // ---------------------------------------------------------------------------

  /** `s.split('/')`: the pieces between slashes, always at least one. */
  function Split(s: string): (parts: seq<string>)
    ensures |parts| >= 1
    ensures forall i :: 0 <= i < |parts| ==> '/' !in parts[i]
    decreases |s|
  {
    if s == [] then [""]
    else if s[0] == '/' then [""] + Split(s[1..])
    else
      var rest := Split(s[1..]);
      [[s[0]] + rest[0]] + rest[1..]
  }

  /** `parts.join('/')` */
  function Join(parts: seq<string>): string
    decreases |parts|
  {
    if parts == [] then ""
    else if |parts| == 1 then parts[0]
    else parts[0] + "/" + Join(parts[1..])
  }

  /** Joining slash-free pieces with `/` and splitting again gives the pieces back. */
  lemma {:induction false} SplitJoin(parts: seq<string>)
    requires parts != [] && forall i :: 0 <= i < |parts| ==> '/' !in parts[i]
    ensures Split(Join(parts)) == parts
    decreases |parts|
  {
    SplitWithoutSlash(parts[0]);
    if |parts| > 1 {
      assert forall i :: 0 <= i < |parts[1..]| ==> parts[1..][i] == parts[i + 1];
      SplitJoin(parts[1..]);
      SplitConcat(parts[0], Join(parts[1..]));
      HeadTail(parts);
    }
  }

  /** Splitting on `/` and joining with `/` gives back the string. */
  lemma {:induction false} JoinSplit(s: string)
    ensures Join(Split(s)) == s
    decreases |s|
  {
    if s != [] {
      JoinSplit(s[1..]);
      var rest := Split(s[1..]);
      HeadTail(s);
      if s[0] == '/' {
        var parts := [""] + rest;
        assert parts[0] == "" && parts[1..] == rest;
        AppendEmpty("/");
      } else {
        var parts := [[s[0]] + rest[0]] + rest[1..];
        assert parts[0] == [s[0]] + rest[0] && parts[1..] == rest[1..];
        if |rest| > 1 {
          AppendAssociates([s[0]], rest[0], "/");
          AppendAssociates([s[0]], rest[0] + "/", Join(rest[1..]));
        }
      }
    }
  }

  /** A slash separates the pieces of what comes before it from those of what comes after it. */
  lemma {:induction false} SplitConcat(a: string, b: string)
    ensures Split(a + "/" + b) == Split(a) + Split(b)
    decreases |a|
  {
    if a == [] {
      assert a + "/" + b == "/" + b;
      assert ("/" + b)[1..] == b;
    } else {
      assert (a + "/" + b)[0] == a[0];
      assert (a + "/" + b)[1..] == a[1..] + "/" + b;
      SplitConcat(a[1..], b);
    }
  }

  /** `parts.filter((segment) => segment !== '')` */
  function NonEmpty(parts: seq<string>): (segs: seq<string>)
    ensures |segs| <= |parts|
    ensures forall i :: 0 <= i < |segs| ==> segs[i] != "" && segs[i] in parts
    decreases |parts|
  {
    if parts == [] then []
    else if parts[0] == "" then NonEmpty(parts[1..])
    else [parts[0]] + NonEmpty(parts[1..])
  }

  lemma {:induction false} NonEmptyAppend(a: seq<string>, b: seq<string>)
    ensures NonEmpty(a + b) == NonEmpty(a) + NonEmpty(b)
    decreases |a|
  {
    if a == [] {
      assert a + b == b;
    } else {
      assert (a + b)[0] == a[0];
      assert (a + b)[1..] == a[1..] + b;
      NonEmptyAppend(a[1..], b);
    }
  }

  /** A segment of a URI: non-empty and free of slashes. */
  predicate IsSegment(seg: string) {
    seg != "" && '/' !in seg
  }

  /** The non-empty segments of `uri`. */
  function Segments(uri: string): (segs: seq<string>)
    ensures forall i :: 0 <= i < |segs| ==> IsSegment(segs[i])
  {
    var segs := NonEmpty(Split(uri));
    assert forall i :: 0 <= i < |segs| ==> segs[i] != "" && '/' !in segs[i] by {
      forall i | 0 <= i < |segs|
        ensures segs[i] != "" && '/' !in segs[i]
      {
        var parts := Split(uri);
        var j :| 0 <= j < |parts| && parts[j] == segs[i];
      }
    }
    segs
  }

  /**
   * Empty segments are dropped: a slash splits the segments of a URI into those
   * before and after it, so leading, trailing and repeated slashes do not matter.
   */
  lemma SlashSeparatesSegments(a: string, b: string)
    ensures Segments(a + "/" + b) == Segments(a) + Segments(b)
  {
    SplitConcat(a, b);
    NonEmptyAppend(Split(a), Split(b));
  }

  lemma SlashesIgnored(a: string, b: string)
    ensures Segments("/" + a) == Segments(a)
    ensures Segments(a + "/") == Segments(a)
    ensures Segments(a + "//" + b) == Segments(a + "/" + b)
  {
    SlashSeparatesSegments("", a);
    assert "" + "/" + a == "/" + a;
    SlashSeparatesSegments(a, "");
    assert a + "/" + "" == a + "/";
    SlashSeparatesSegments(a, "/" + b);
    assert a + "/" + ("/" + b) == a + "//" + b;
    SlashSeparatesSegments("", b);
    assert "" + "/" + b == "/" + b;
    SlashSeparatesSegments(a, b);
  }

  // ---------------------------------------------------------------------------
  // The lookups of the `do … while` loop
  // ---------------------------------------------------------------------------

  /** `uriSegments.pop()`: drops the last segment; does nothing on an empty list. */
  function Parent(segs: seq<string>): (p: seq<string>)
    ensures |segs| > 0 ==> p == segs[..|segs| - 1]
    ensures |segs| == 0 ==> p == []
  {
    if |segs| == 0 then [] else segs[..|segs| - 1]
  }

  /** `` `/${uriSegments.join('/')}/` `` */
  function PrefixUri(segs: seq<string>): string {
    "/" + Join(segs) + "/"
  }

  /** The looked-up URI has exactly the segments that were joined. */
  lemma PrefixUriSegments(segs: seq<string>)
    requires forall i :: 0 <= i < |segs| ==> IsSegment(segs[i])
    ensures Segments(PrefixUri(segs)) == segs
  {
    var joined := Join(segs);
    assert PrefixUri(segs) == ("/" + joined) + "/";
    SlashesIgnored(joined, "");
    SlashesIgnored("/" + joined, "");
    if segs == [] {
      assert Split(joined) == [""];
      assert NonEmpty([""]) == NonEmpty([]);
    } else {
      SplitJoin(segs);
      NonEmptyKeepsSegments(segs);
    }
  }

  /** The filter keeps a list that has no empty piece unchanged. */
  lemma {:induction false} NonEmptyKeepsSegments(segs: seq<string>)
    requires forall i :: 0 <= i < |segs| ==> IsSegment(segs[i])
    ensures NonEmpty(segs) == segs
    decreases |segs|
  {
    if segs != [] {
      assert forall i :: 0 <= i < |segs[1..]| ==> segs[1..][i] == segs[i + 1];
      NonEmptyKeepsSegments(segs[1..]);
      HeadTail(segs);
    }
  }

  /**
   * The URIs the loop looks up, in the order it looks them up: the current
   * prefix first, then shorter ones; the body runs once even for no segments.
   */
  function Lookups(segs: seq<string>): (probes: seq<string>)
    ensures |probes| == if |segs| == 0 then 1 else |segs|
    decreases |segs|
  {
    [PrefixUri(segs)] + if |segs| <= 1 then [] else Lookups(segs[..|segs| - 1])
  }

  /** For a non-empty prefix, the lookup of the first `k` segments comes `|segs| - k` lookups in. */
  lemma {:induction false} LookupAt(segs: seq<string>, k: int, j: int)
    requires 1 <= k <= |segs| && j == |segs| - k
    ensures Lookups(segs)[j] == PrefixUri(segs[..k])
    decreases |segs|
  {
    if k == |segs| {
      assert segs[..k] == segs;
    } else {
      var init := segs[..|segs| - 1];
      LookupAt(init, k, j - 1);
      assert init[..k] == segs[..k];
    }
  }

  /** `array.reverse()`, on values. */
  function Reversed<T>(s: seq<T>): (r: seq<T>)
    ensures |r| == |s|
    decreases |s|
  {
    if s == [] then [] else Reversed(s[1..]) + [s[0]]
  }

  lemma {:induction false} ReversedAt<T>(s: seq<T>, i: int, j: int)
    requires 0 <= i < |s| && j == |s| - 1 - i
    ensures Reversed(s)[i] == s[j]
    decreases |s|
  {
    if i < |s| - 1 {
      ReversedAt(s[1..], i, j - 1);
    }
  }

  lemma ReversedSingleton<T>(x: T)
    ensures Reversed([x]) == [x]
  {
    assert [x][1..] == [];
    AppendEmpty([x]);
  }

  lemma {:induction false} ReversedAppend<T>(a: seq<T>, b: seq<T>)
    ensures Reversed(a + b) == Reversed(b) + Reversed(a)
    decreases |a|
  {
    if a == [] {
      AppendEmpty(b);
      AppendEmpty(Reversed(b));
    } else {
      assert (a + b)[0] == a[0];
      assert (a + b)[1..] == a[1..] + b;
      ReversedAppend(a[1..], b);
      AppendAssociates(Reversed(b), Reversed(a[1..]), [a[0]]);
    }
  }

  // ---------------------------------------------------------------------------
  // Finding pages and collecting crumbs
  // ---------------------------------------------------------------------------

  /** `pages.find((page) => page.uri === target)`, as the index of the page found. */
  function FindByUri(pages: seq<Record>, target: string): (r: Option<nat>)
    ensures r.Some? ==> r.value < |pages|
    decreases |pages|
  {
    if pages == [] then None
    else if Field(pages[0], "uri") == Str(target) then Some(0)
    else
      match FindByUri(pages[1..], target)
      case None => None
      case Some(i) => Some(i + 1)
  }

  /** `find` yields the first page whose `uri` is exactly `target`, and nothing when there is none. */
  lemma {:induction false} FindByUriFirst(pages: seq<Record>, target: string)
    ensures var r := FindByUri(pages, target);
      && (r.Some? ==> Field(pages[r.value], "uri") == Str(target))
      && (r.Some? ==> forall j :: 0 <= j < r.value ==> Field(pages[j], "uri") != Str(target))
      && (r.None? ==> forall j :: 0 <= j < |pages| ==> Field(pages[j], "uri") != Str(target))
    decreases |pages|
  {
    if pages != [] && Field(pages[0], "uri") != Str(target) {
      FindByUriFirst(pages[1..], target);
      forall j | 0 < j < |pages|
        ensures pages[j] == pages[1..][j - 1]
      {
      }
    }
  }

  datatype Crumb = Crumb(id: Json, title: Json, uri: Json)

  /** `{ id: crumb.id, title: crumb.title, uri: crumb.uri }` */
  function CrumbOf(page: Record): Crumb {
    Crumb(Field(page, "id"), Field(page, "title"), Field(page, "uri"))
  }

  /** Two pages give the same crumb exactly when they agree on `id`, `title` and `uri`; no other field is carried. */
  lemma CrumbOnlyIdTitleUri(page: Record, other: Record)
    ensures CrumbOf(page) == CrumbOf(other) <==>
      Field(page, "id") == Field(other, "id") && Field(page, "title") == Field(other, "title") && Field(page, "uri") == Field(other, "uri")
  {
  }

  /**
   * The crumbs pushed for the given lookups, in lookup order: a lookup that
   * finds no page pushes nothing, and the walk goes on.
   */
  function Trail(pages: seq<Record>, probes: seq<string>): seq<Crumb>
    decreases |probes|
  {
    if probes == [] then [] else Pushed(pages, probes[0]) + Trail(pages, probes[1..])
  }

  /** What one lookup pushes: the crumb of the first page with that `uri`, if any. */
  function Pushed(pages: seq<Record>, probe: string): seq<Crumb> {
    var found := FindByUri(pages, probe);
    if found.Some? then [CrumbOf(pages[found.value])] else []
  }

  /** One pass of the loop body: the lookup of the current prefix, then those of its parent. */
  lemma TrailStep(pages: seq<Record>, segs: seq<string>)
    ensures |segs| <= 1 ==> Trail(pages, Lookups(segs)) == Pushed(pages, PrefixUri(segs))
    ensures |segs| > 1 ==> Trail(pages, Lookups(segs)) == Pushed(pages, PrefixUri(segs)) + Trail(pages, Lookups(Parent(segs)))
  {
    var probes := Lookups(segs);
    assert probes[0] == PrefixUri(segs);
    if |segs| <= 1 {
      assert probes[1..] == [];
    } else {
      assert probes[1..] == Lookups(Parent(segs));
    }
  }

  lemma {:induction false} TrailAppend(pages: seq<Record>, a: seq<string>, b: seq<string>)
    ensures Trail(pages, a + b) == Trail(pages, a) + Trail(pages, b)
    decreases |a|
  {
    if a == [] {
      AppendEmpty(b);
      AppendEmpty(Trail(pages, b));
    } else {
      assert (a + b)[0] == a[0];
      assert (a + b)[1..] == a[1..] + b;
      TrailAppend(pages, a[1..], b);
      AppendAssociates(Pushed(pages, a[0]), Trail(pages, a[1..]), Trail(pages, b));
    }
  }

  /** Reversing the crumbs of some lookups gives the crumbs of the reversed lookups. */
  lemma {:induction false} TrailReversed(pages: seq<Record>, probes: seq<string>)
    ensures Reversed(Trail(pages, probes)) == Trail(pages, Reversed(probes))
    decreases |probes|
  {
    if probes != [] {
      var first, rest := probes[0], probes[1..];
      var pushed := Pushed(pages, first);
      TrailReversed(pages, rest);
      ReversedAppend(pushed, Trail(pages, rest));
      HeadTail(probes);
      ReversedAppend([first], rest);
      ReversedSingleton(first);
      TrailAppend(pages, Reversed(rest), [first]);
      assert Trail(pages, [first]) == pushed + Trail(pages, []);
      AppendEmpty(pushed);
      if pushed != [] {
        ReversedSingleton(pushed[0]);
      }
    }
  }

  /** The breadcrumbs of `uri`: the crumbs of the ancestors' lookups, root first. */
  function BreadcrumbsOf(uri: string, pages: seq<Record>): seq<Crumb> {
    Reversed(Trail(pages, Lookups(Parent(Segments(uri)))))
  }

  // ---------------------------------------------------------------------------
  // getBreadcrumbsByUri
  // ---------------------------------------------------------------------------

  /** The loop invariant survives one pass: the crumb pushed for `segs` moves from the remaining trail to the collected one. */
  lemma CollectStep(pages: seq<Record>, ancestors: seq<string>, collected: seq<Crumb>, segs: seq<string>)
    requires Trail(pages, Lookups(ancestors)) == collected + Trail(pages, Lookups(segs))
    ensures |segs| <= 1 ==> Trail(pages, Lookups(ancestors)) == collected + Pushed(pages, PrefixUri(segs))
    ensures |segs| > 1 ==>
      Trail(pages, Lookups(ancestors)) == (collected + Pushed(pages, PrefixUri(segs))) + Trail(pages, Lookups(Parent(segs)))
  {
    TrailStep(pages, segs);
    if |segs| > 1 {
      var pushed := Pushed(pages, PrefixUri(segs));
      var rest := Trail(pages, Lookups(Parent(segs)));
      AppendAssociates(collected, pushed, rest);
    }
  }

  method GetBreadcrumbsByUri(uri: string, pages: seq<Record>) returns (breadcrumbs: seq<Crumb>)
    ensures breadcrumbs == BreadcrumbsOf(uri, pages)
  {
    breadcrumbs := [];
    var uriSegments := Segments(uri);
    uriSegments := Parent(uriSegments);
    ghost var ancestors := uriSegments;
    AppendEmpty(Trail(pages, Lookups(ancestors)));
    while true
      invariant Trail(pages, Lookups(ancestors)) == breadcrumbs + Trail(pages, Lookups(uriSegments))
      decreases |uriSegments|
    {
      CollectStep(pages, ancestors, breadcrumbs, uriSegments);
      ghost var collected := breadcrumbs;
      var found := FindByUri(pages, PrefixUri(uriSegments));
      if found.Some? {
        breadcrumbs := breadcrumbs + [CrumbOf(pages[found.value])];
      } else {
        AppendEmpty(breadcrumbs);
      }
      assert breadcrumbs == collected + Pushed(pages, PrefixUri(uriSegments));
      uriSegments := Parent(uriSegments);
      if |uriSegments| == 0 {
        break;
      }
    }
    breadcrumbs := Reversed(breadcrumbs);
  }

  // ---------------------------------------------------------------------------
  // What the trail promises
  // ---------------------------------------------------------------------------

  /** Every crumb is the first page whose `uri` is one of the lookups. */
  lemma {:induction false} TrailSound(pages: seq<Record>, probes: seq<string>, i: int)
    requires 0 <= i < |Trail(pages, probes)|
    ensures exists j ::
      && 0 <= j < |probes|
      && FindByUri(pages, probes[j]).Some?
      && Trail(pages, probes)[i] == CrumbOf(pages[FindByUri(pages, probes[j]).value])
    decreases |probes|
  {
    var found := FindByUri(pages, probes[0]);
    var first := if found.Some? then [CrumbOf(pages[found.value])] else [];
    if i < |first| {
      assert Trail(pages, probes)[i] == CrumbOf(pages[found.value]);
    } else {
      TrailSound(pages, probes[1..], i - |first|);
      var j :| 0 <= j < |probes[1..]| && FindByUri(pages, probes[1..][j]).Some? &&
        Trail(pages, probes[1..])[i - |first|] == CrumbOf(pages[FindByUri(pages, probes[1..][j]).value]);
      assert probes[1..][j] == probes[j + 1];
    }
  }

  /** Every lookup that finds a page contributes that page's crumb; missing prefixes are skipped. */
  lemma {:induction false} TrailComplete(pages: seq<Record>, probes: seq<string>, j: int)
    requires 0 <= j < |probes| && FindByUri(pages, probes[j]).Some?
    ensures CrumbOf(pages[FindByUri(pages, probes[j]).value]) in Trail(pages, probes)
    decreases |probes|
  {
    if j > 0 {
      TrailComplete(pages, probes[1..], j - 1);
      assert probes[1..][j - 1] == probes[j];
    }
  }

  /** No more crumbs than lookups. */
  lemma {:induction false} TrailLength(pages: seq<Record>, probes: seq<string>)
    ensures |Trail(pages, probes)| <= |probes|
    decreases |probes|
  {
    if probes != [] {
      TrailLength(pages, probes[1..]);
    }
  }

  predicate StrictPrefix(a: string, b: string) {
    |a| < |b| && StartsWith(b, a)
  }

  /** The `uri` of crumb `c` is a string that is a strict prefix of the `uri` of crumb `d`. */
  predicate UriBefore(c: Crumb, d: Crumb) {
    c.uri.Str? && d.uri.Str? && StrictPrefix(c.uri.s, d.uri.s)
  }

  /** A crumb's `uri` is one of the lookups, at or after the position the crumb came from. */
  lemma {:induction false} TrailUri(pages: seq<Record>, probes: seq<string>, m: int)
    requires 0 <= m < |Trail(pages, probes)|
    ensures exists q :: m <= q < |probes| && Trail(pages, probes)[m].uri == Str(probes[q])
    decreases |probes|
  {
    var found := FindByUri(pages, probes[0]);
    var first := if found.Some? then [CrumbOf(pages[found.value])] else [];
    if m < |first| {
      FindByUriFirst(pages, probes[0]);
      assert Trail(pages, probes)[m].uri == Str(probes[0]);
    } else {
      TrailUri(pages, probes[1..], m - |first|);
      var q :| m - |first| <= q < |probes[1..]| && Trail(pages, probes[1..])[m - |first|].uri == Str(probes[1..][q]);
      assert Trail(pages, probes)[m].uri == Str(probes[q + 1]);
    }
  }

  /** Lookups ordered by strict prefix give crumbs ordered by strict prefix of their `uri`. */
  lemma {:induction false} TrailOrdered(pages: seq<Record>, probes: seq<string>)
    requires ProbesOrdered(probes)
    ensures CrumbsOrdered(Trail(pages, probes))
    decreases |probes|
  {
    if probes != [] {
      var rest := Trail(pages, probes[1..]);
      ProbesOrderedTail(probes);
      TrailOrdered(pages, probes[1..]);
      assert Trail(pages, probes) == Pushed(pages, probes[0]) + rest;
      var found := FindByUri(pages, probes[0]);
      if found.Some? {
        var c := CrumbOf(pages[found.value]);
        FindByUriFirst(pages, probes[0]);
        HeadBeforeTrail(pages, probes, c);
        ConsOrdered(c, rest);
      } else {
        assert Pushed(pages, probes[0]) + rest == rest;
      }
    }
  }

  /** Each lookup is a strict prefix of every later one. */
  predicate ProbesOrdered(probes: seq<string>) {
    forall i, j :: 0 <= i < j < |probes| ==> StrictPrefix(probes[i], probes[j])
  }

  /** Each crumb's `uri` is a strict prefix of every later crumb's. */
  predicate CrumbsOrdered(t: seq<Crumb>) {
    forall i, j :: 0 <= i < j < |t| ==> UriBefore(t[i], t[j])
  }

  lemma ProbesOrderedTail(probes: seq<string>)
    requires probes != [] && ProbesOrdered(probes)
    ensures ProbesOrdered(probes[1..])
  {
    forall i, j | 0 <= i < j < |probes[1..]|
      ensures StrictPrefix(probes[1..][i], probes[1..][j])
    {
      assert probes[1..][i] == probes[i + 1] && probes[1..][j] == probes[j + 1];
    }
  }

  /** A crumb for the first lookup comes before every crumb of the later lookups. */
  lemma HeadBeforeTrail(pages: seq<Record>, probes: seq<string>, c: Crumb)
    requires probes != [] && c.uri == Str(probes[0])
    requires ProbesOrdered(probes)
    ensures forall j :: 0 <= j < |Trail(pages, probes[1..])| ==> UriBefore(c, Trail(pages, probes[1..])[j])
  {
    var rest := Trail(pages, probes[1..]);
    forall j | 0 <= j < |rest|
      ensures UriBefore(c, rest[j])
    {
      TrailUri(pages, probes[1..], j);
      var q :| j <= q < |probes[1..]| && rest[j].uri == Str(probes[1..][q]);
      assert probes[1..][q] == probes[q + 1];
      assert StrictPrefix(probes[0], probes[q + 1]);
    }
  }

  /** Putting a crumb that comes before all others in front of an ordered list keeps it ordered. */
  lemma ConsOrdered(c: Crumb, rest: seq<Crumb>)
    requires forall j :: 0 <= j < |rest| ==> UriBefore(c, rest[j])
    requires CrumbsOrdered(rest)
    ensures CrumbsOrdered([c] + rest)
  {
    var t := [c] + rest;
    forall i, j | 0 <= i < j < |t|
      ensures UriBefore(t[i], t[j])
    {
      assert t[j] == rest[j - 1];
      if i > 0 {
        assert t[i] == rest[i - 1];
      }
    }
  }

  /** Joining one more segment extends the joined string by a slash and that segment. */
  lemma {:induction false} JoinSnoc(segs: seq<string>, x: string)
    requires |segs| >= 1
    ensures Join(segs + [x]) == Join(segs) + "/" + x
    decreases |segs|
  {
    if |segs| == 1 {
      assert segs + [x] == [segs[0], x];
      assert [segs[0], x][1..] == [x];
    } else {
      assert (segs + [x])[1..] == segs[1..] + [x];
      JoinSnoc(segs[1..], x);
    }
  }

  /** The lookup for a shorter prefix of at least one segment is a strict prefix of the lookup for a longer one. */
  lemma {:induction false} PrefixUriGrows(segs: seq<string>, k: int, m: int)
    requires forall i :: 0 <= i < |segs| ==> IsSegment(segs[i])
    requires 1 <= k < m <= |segs|
    ensures StrictPrefix(PrefixUri(segs[..k]), PrefixUri(segs[..m]))
    decreases m - k
  {
    var shorter := segs[..m - 1];
    assert segs[..m] == shorter + [segs[m - 1]];
    JoinSnoc(shorter, segs[m - 1]);
    assert PrefixUri(segs[..m]) == PrefixUri(shorter) + segs[m - 1] + "/";
    if k < m - 1 {
      PrefixUriGrows(segs, k, m - 1);
    }
  }

  /** The lookups for `segs`, root first: the prefixes of one, two, ... segments. */
  lemma RootFirstLookups(segs: seq<string>, i: int)
    requires 0 <= i < |segs|
    ensures Reversed(Lookups(segs))[i] == PrefixUri(segs[..i + 1])
  {
    var probes := Lookups(segs);
    var back := |segs| - (i + 1);
    assert Reversed(probes)[i] == probes[back] by {
      assert |probes| == |segs|;
      ReversedAt(probes, i, back);
    }
    assert probes[back] == PrefixUri(segs[..i + 1]) by {
      LookupAt(segs, i + 1, back);
    }
  }

  /** The `i`-th root-first lookup for the ancestors of `segs` is the prefix of `i + 1` segments. */
  lemma AncestorLookup(segs: seq<string>, i: int)
    requires 0 <= i < |segs| - 1
    ensures Reversed(Lookups(Parent(segs)))[i] == PrefixUri(segs[..i + 1])
  {
    var ancestors := segs[..|segs| - 1];
    RootFirstLookups(ancestors, i);
    assert ancestors[..i + 1] == segs[..i + 1];
  }

  /**
   * A crumb's `uri` is `/` + a proper prefix of the URI's segments joined by `/`
   * + `/`, and it carries the first page with that exact `uri`; when the page
   * has at most one segment, the only lookup is `//`.
   */
  lemma CrumbsAreAncestors(uri: string, pages: seq<Record>, i: int)
    requires 0 <= i < |BreadcrumbsOf(uri, pages)|
    ensures var segs := Segments(uri);
      var c := BreadcrumbsOf(uri, pages)[i];
      exists k ::
        && 0 <= k && (k < |segs| || k == 0)
        && (k == 0 ==> |segs| <= 1)
        && FindByUri(pages, PrefixUri(segs[..k])).Some?
        && c == CrumbOf(pages[FindByUri(pages, PrefixUri(segs[..k])).value])
        && c.uri == Str(PrefixUri(segs[..k]))
  {
    var segs := Segments(uri);
    var ancestors := Parent(segs);
    var probes := Lookups(ancestors);
    TrailReversed(pages, probes);
    TrailSound(pages, Reversed(probes), i);
    var j :| 0 <= j < |Reversed(probes)| && FindByUri(pages, Reversed(probes)[j]).Some? &&
      Trail(pages, Reversed(probes))[i] == CrumbOf(pages[FindByUri(pages, Reversed(probes)[j]).value]);
    FindByUriFirst(pages, Reversed(probes)[j]);
    if |ancestors| == 0 {
      ReversedAt(probes, j, 0);
      assert Reversed(probes)[j] == PrefixUri(segs[..0]);
    } else {
      AncestorLookup(segs, j);
    }
  }

  /** The breadcrumbs are ordered root first: each crumb's `uri` is a strict prefix of the next one's. */
  lemma BreadcrumbsRootFirst(uri: string, pages: seq<Record>)
    ensures var b := BreadcrumbsOf(uri, pages);
      forall i, j :: 0 <= i < j < |b| ==> UriBefore(b[i], b[j])
  {
    var ancestors := Parent(Segments(uri));
    AncestorProbesOrdered(Segments(uri));
    TrailOrdered(pages, Reversed(Lookups(ancestors)));
    TrailReversed(pages, Lookups(ancestors));
  }

  /** Root first, each ancestor lookup is a strict prefix of every later one. */
  lemma AncestorProbesOrdered(segs: seq<string>)
    requires forall i :: 0 <= i < |segs| ==> IsSegment(segs[i])
    ensures ProbesOrdered(Reversed(Lookups(Parent(segs))))
  {
    var probes := Reversed(Lookups(Parent(segs)));
    forall i, j | 0 <= i < j < |probes|
      ensures StrictPrefix(probes[i], probes[j])
    {
      AncestorLookup(segs, i);
      AncestorLookup(segs, j);
      PrefixUriGrows(segs, i + 1, j + 1);
    }
  }

  /** At most max(1, n - 1) crumbs for a URI of n segments: one per lookup. */
  lemma BreadcrumbsBound(uri: string, pages: seq<Record>)
    ensures var n := |Segments(uri)|;
      |BreadcrumbsOf(uri, pages)| <= if n <= 2 then 1 else n - 1
  {
    TrailLength(pages, Lookups(Parent(Segments(uri))));
  }

  /**
   * Every proper prefix that some page has as its exact `uri` yields a crumb
   * for the first such page; prefixes without a page are skipped.
   */
  lemma BreadcrumbsComplete(uri: string, pages: seq<Record>, k: int)
    requires 1 <= k < |Segments(uri)|
    requires FindByUri(pages, PrefixUri(Segments(uri)[..k])).Some?
    ensures CrumbOf(pages[FindByUri(pages, PrefixUri(Segments(uri)[..k])).value]) in BreadcrumbsOf(uri, pages)
  {
    var segs := Segments(uri);
    var ancestors := Parent(segs);
    AncestorLookup(segs, k - 1);
    TrailComplete(pages, Reversed(Lookups(ancestors)), k - 1);
    TrailReversed(pages, Lookups(ancestors));
  }

  /** The page's own full URI is never looked up. */
  lemma OwnUriNotLookedUp(uri: string)
    requires |Segments(uri)| >= 1
    ensures PrefixUri(Segments(uri)) !in Lookups(Parent(Segments(uri)))
  {
    var segs := Segments(uri);
    var ancestors := Parent(segs);
    var probes := Lookups(ancestors);
    assert segs[..|segs|] == segs;
    if |ancestors| == 0 {
      assert probes == [PrefixUri([])];
      assert |PrefixUri(segs)| > 2 by {
        assert segs == [segs[0]];
        assert IsSegment(segs[0]);
      }
    } else {
      forall i | 0 <= i < |probes|
        ensures probes[i] != PrefixUri(segs)
      {
        LookupAt(ancestors, |ancestors| - i, i);
        assert ancestors[..|ancestors| - i] == segs[..|segs| - 1 - i];
        PrefixUriGrows(segs, |segs| - 1 - i, |segs|);
      }
    }
  }

  /** For `/` and for one-segment URIs the loop's single lookup is `//`. */
  lemma ShallowUriLooksUpDoubleSlash(uri: string)
    requires |Segments(uri)| <= 1
    ensures Lookups(Parent(Segments(uri))) == ["//"]
  {
    var none: seq<string> := [];
    assert Parent(Segments(uri)) == none;
    assert PrefixUri(none) == "//";
    assert Lookups(none) == [PrefixUri(none)] + [];
  }

  lemma RootHasNoSegments()
    ensures Segments("/") == []
  {
    assert Split("/") == ["", ""];
  }

  /** URIs that differ only in leading, trailing or doubled slashes get the same breadcrumbs. */
  lemma SlashesDoNotChangeBreadcrumbs(a: string, b: string, pages: seq<Record>)
    ensures BreadcrumbsOf("/" + a, pages) == BreadcrumbsOf(a, pages)
    ensures BreadcrumbsOf(a + "/", pages) == BreadcrumbsOf(a, pages)
    ensures BreadcrumbsOf(a + "//" + b, pages) == BreadcrumbsOf(a + "/" + b, pages)
  {
    SlashesIgnored(a, b);
  }

  /** A string without slashes splits into itself. */
  lemma {:induction false} SplitWithoutSlash(s: string)
    requires '/' !in s
    ensures Split(s) == [s]
    decreases |s|
  {
    if s != [] {
      assert forall c :: c in s[1..] ==> c in s;
      SplitWithoutSlash(s[1..]);
      HeadTail(s);
    }
  }

  /**
   * The path `pagePathBySlug` builds for a slug is a one-segment URI: its only
   * segment is the slug, and its breadcrumb walk looks up `//` alone.
   */
  lemma PagePathSegments(slug: string)
    requires IsSegment(slug)
    ensures Segments(Pages.PagePathBySlug(slug)) == [slug]
    ensures Lookups(Parent(Segments(Pages.PagePathBySlug(slug)))) == ["//"]
  {
    SlashesIgnored(slug, "");
    SplitWithoutSlash(slug);
    assert NonEmpty([slug]) == [slug] + NonEmpty([]);
    ShallowUriLooksUpDoubleSlash(Pages.PagePathBySlug(slug));
  }
}
