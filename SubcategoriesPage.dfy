/**
 * The "all categories" page: it loads the active subcategories, then up to
 * eight products of each, and shows the subcategories grouped under their
 * category with a few counts. The two fetch helpers turn every failure
 * into an empty list.
 */
module SubcategoriesPage {
  import opened Text
  import opened Catalog
  import opened ProductCard

  /** The page's copy of the image resolver. */
  const PageResolver: Resolver := Resolver(HttpPrefix, JpgPlaceholder)

  // ---------------------------------------------------------------------------
  // Grouping by category

  datatype Group = Group(categoria: CategoryRef, subcategorias: seq<Subcategory>)

  /** The subcategories of category `k`, in list order. */
  function InCategory(subs: seq<Subcategory>, k: int): seq<Subcategory> {
    if subs == [] then []
    else
      var last := subs[|subs| - 1];
      InCategory(subs[..|subs| - 1], k) + (if last.categoriaId == k then [last] else [])
  }

  /** The first subcategory of category `k`, if there is one. */
  function FirstOfCategory(subs: seq<Subcategory>, k: int): (f: Option<Subcategory>)
    ensures f.Some? ==> f.value in subs && f.value.categoriaId == k
  {
    if subs == [] then None
    else
      var first := FirstOfCategory(subs[..|subs| - 1], k);
      var last := subs[|subs| - 1];
      if first.Some? then first
      else if last.categoriaId == k then Some(last)
      else None
  }

  function CategoryIds(subs: seq<Subcategory>): set<int> {
    set i | 0 <= i < |subs| :: subs[i].categoriaId
  }

  lemma CategoryIdsSnoc(subs: seq<Subcategory>, i: int)
    requires 0 <= i < |subs|
    ensures CategoryIds(subs[..i + 1]) == CategoryIds(subs[..i]) + {subs[i].categoriaId}
  {
    var a, b := subs[..i], subs[..i + 1];
    assert b[i] == subs[i];
    forall k | k in CategoryIds(b) ensures k in CategoryIds(a) + {subs[i].categoriaId} {
      var j :| 0 <= j < |b| && b[j].categoriaId == k;
      if j < i {
        assert a[j] == b[j];
      }
    }
    forall k | k in CategoryIds(a) ensures k in CategoryIds(b) {
      var j :| 0 <= j < |a| && a[j].categoriaId == k;
      assert b[j] == a[j];
    }
  }

  /** A category has a first subcategory exactly when it occurs in the list. */
  lemma {:induction false} FirstOfCategoryIff(subs: seq<Subcategory>, k: int)
    ensures FirstOfCategory(subs, k).Some? <==> k in CategoryIds(subs)
    decreases |subs|
  {
    if subs != [] {
      var init := subs[..|subs| - 1];
      FirstOfCategoryIff(init, k);
      CategoryIdsSnoc(subs, |subs| - 1);
      assert subs[..|subs|] == subs;
    }
  }

  /** `groups` holds exactly the groups of `subs`: one per category, with
      that category's subcategories in list order, named after its first. */
  predicate GroupsOf(subs: seq<Subcategory>, groups: map<int, Group>) {
    && groups.Keys == CategoryIds(subs)
    && (forall k :: k in groups ==> groups[k].subcategorias == InCategory(subs, k))
    && (forall k :: k in groups ==> FirstOfCategory(subs, k).Some? && groups[k].categoria == FirstOfCategory(subs, k).value.categoria)
  }

  /** `reduce` step by step: the groups of the subcategories seen so far. */
  method GroupByCategory(subs: seq<Subcategory>) returns (groups: map<int, Group>)
    ensures groups.Keys == CategoryIds(subs)
    ensures forall k :: k in groups ==> groups[k].subcategorias == InCategory(subs, k)
    ensures forall k :: k in groups ==> FirstOfCategory(subs, k).Some? && groups[k].categoria == FirstOfCategory(subs, k).value.categoria
  {
    groups := map[];
    var i := 0;
    while i < |subs|
      invariant 0 <= i <= |subs|
      invariant GroupsOf(subs[..i], groups)
    {
      groups := AddSubcategory(subs, i, groups);
      i := i + 1;
    }
    assert subs[..|subs|] == subs;
  }

  /** The reducer's body: file `subs[i]` under its category, opening the
      group when the category is new. */
  method AddSubcategory(subs: seq<Subcategory>, i: int, groups: map<int, Group>) returns (next: map<int, Group>)
    requires 0 <= i < |subs|
    requires GroupsOf(subs[..i], groups)
    ensures GroupsOf(subs[..i + 1], next)
  {
    var s := subs[i];
    var c := s.categoriaId;
    var g := if c in groups then groups[c] else Group(s.categoria, []);
    next := groups[c := g.(subcategorias := g.subcategorias + [s])];
    GroupStep(subs, i, groups);
    var b := subs[..i + 1];
    assert next.Keys == CategoryIds(b);
    forall k | k in next
      ensures next[k].subcategorias == InCategory(b, k)
      ensures FirstOfCategory(b, k).Some? && next[k].categoria == FirstOfCategory(b, k).value.categoria
    {
      if k != c {
        assert next[k] == groups[k];
      }
    }
  }

  /** What one more subcategory does to the specification functions. */
  lemma GroupStep(subs: seq<Subcategory>, i: int, groups: map<int, Group>)
    requires 0 <= i < |subs|
    requires groups.Keys == CategoryIds(subs[..i])
    ensures CategoryIds(subs[..i + 1]) == CategoryIds(subs[..i]) + {subs[i].categoriaId}
    ensures forall k :: InCategory(subs[..i + 1], k) == InCategory(subs[..i], k) + (if subs[i].categoriaId == k then [subs[i]] else [])
    ensures forall k :: k in groups ==> FirstOfCategory(subs[..i + 1], k) == FirstOfCategory(subs[..i], k)
    ensures subs[i].categoriaId !in groups ==> InCategory(subs[..i], subs[i].categoriaId) == [] && FirstOfCategory(subs[..i + 1], subs[i].categoriaId) == Some(subs[i])
  {
    var b := subs[..i + 1];
    assert b[..i] == subs[..i] && b[i] == subs[i];
    CategoryIdsSnoc(subs, i);
    forall k | k in groups ensures FirstOfCategory(b, k) == FirstOfCategory(subs[..i], k) {
      FirstOfCategoryIff(subs[..i], k);
    }
    var c := subs[i].categoriaId;
    if c !in groups {
      FirstOfCategoryIff(subs[..i], c);
      InCategoryEmpty(subs[..i], c);
    }
  }

  lemma {:induction false} InCategoryEmpty(subs: seq<Subcategory>, k: int)
    requires k !in CategoryIds(subs)
    ensures InCategory(subs, k) == []
    decreases |subs|
  {
    if subs != [] {
      var init := subs[..|subs| - 1];
      CategoryIdsSnoc(subs, |subs| - 1);
      assert subs[..|subs|] == subs;
      InCategoryEmpty(init, k);
    }
  }

  /** A subcategory is in its category's group exactly once it is in the list. */
  lemma {:induction false} InCategoryMembers(subs: seq<Subcategory>, k: int, s: Subcategory)
    ensures s in InCategory(subs, k) <==> s in subs && s.categoriaId == k
    decreases |subs|
  {
    if subs != [] {
      var init := subs[..|subs| - 1];
      InCategoryMembers(init, k, s);
      assert subs == init + [subs[|subs| - 1]];
    }
  }

  // ---------------------------------------------------------------------------
  // The counts in the page heading

  /** The category ids in the order they are first seen. */
  function DistinctCategoryIds(subs: seq<Subcategory>): seq<int> {
    if subs == [] then []
    else
      var d := DistinctCategoryIds(subs[..|subs| - 1]);
      var c := subs[|subs| - 1].categoriaId;
      if c in d then d else d + [c]
  }

  lemma {:induction false} DistinctCategoryIdsProps(subs: seq<Subcategory>)
    ensures forall k :: k in DistinctCategoryIds(subs) <==> k in CategoryIds(subs)
    ensures |DistinctCategoryIds(subs)| == |CategoryIds(subs)|
    ensures forall i, j :: 0 <= i < j < |DistinctCategoryIds(subs)| ==> DistinctCategoryIds(subs)[i] != DistinctCategoryIds(subs)[j]
    decreases |subs|
  {
    if subs != [] {
      var init := subs[..|subs| - 1];
      var c := subs[|subs| - 1].categoriaId;
      DistinctCategoryIdsProps(init);
      CategoryIdsSnoc(subs, |subs| - 1);
      assert subs[..|subs|] == subs;
      if c in CategoryIds(init) {
        assert CategoryIds(subs) == CategoryIds(init);
      } else {
        assert |CategoryIds(init) + {c}| == |CategoryIds(init)| + 1;
      }
    }
  }

  /** The sizes of the groups of `keys`, added up. */
  function GroupSizes(keys: seq<int>, subs: seq<Subcategory>): nat {
    if keys == [] then 0 else |InCategory(subs, keys[0])| + GroupSizes(keys[1..], subs)
  }

  lemma {:induction false} GroupSizesSnoc(keys: seq<int>, subs: seq<Subcategory>)
    requires subs != []
    requires forall i, j :: 0 <= i < j < |keys| ==> keys[i] != keys[j]
    ensures GroupSizes(keys, subs) ==
      GroupSizes(keys, subs[..|subs| - 1]) + (if subs[|subs| - 1].categoriaId in keys then 1 else 0)
    decreases |keys|
  {
    if keys != [] {
      GroupSizesSnoc(keys[1..], subs);
      assert keys[0] !in keys[1..] by {
        forall j | 0 <= j < |keys[1..]| ensures keys[1..][j] != keys[0] {
          assert keys[1..][j] == keys[j + 1];
        }
      }
    }
  }

  lemma {:induction false} GroupSizesAppend(keys: seq<int>, k: int, subs: seq<Subcategory>)
    ensures GroupSizes(keys + [k], subs) == GroupSizes(keys, subs) + |InCategory(subs, k)|
    decreases |keys|
  {
    if keys != [] {
      assert (keys + [k])[1..] == keys[1..] + [k];
      GroupSizesAppend(keys[1..], k, subs);
    } else {
      assert [k][1..] == [];
    }
  }

  /** Every subcategory is counted in exactly one group: the group sizes
      add up to the length of the list. */
  lemma {:induction false} GroupSizesSum(subs: seq<Subcategory>)
    ensures GroupSizes(DistinctCategoryIds(subs), subs) == |subs|
    decreases |subs|
  {
    if subs != [] {
      var init := subs[..|subs| - 1];
      var c := subs[|subs| - 1].categoriaId;
      var d := DistinctCategoryIds(init);
      GroupSizesSum(init);
      DistinctCategoryIdsProps(init);
      GroupSizesSnoc(d, subs);
      if c !in d {
        GroupSizesAppend(d, c, subs);
        InCategoryEmpty(init, c);
        assert InCategory(subs, c) == [subs[|subs| - 1]];
      }
    }
  }

  // ---------------------------------------------------------------------------
  // Products per subcategory

  predicate LastOccurrence(ids: seq<int>, i: int)
    requires 0 <= i < |ids|
  {
    forall j :: i < j < |ids| ==> ids[j] != ids[i]
  }

  /** The `reduce` that builds `produtosMap`: a later entry for the same id
      replaces an earlier one. */
  method BuildProductMap(ids: seq<int>, produtos: seq<seq<Product>>) returns (m: map<int, seq<Product>>)
    requires |ids| == |produtos|
    ensures m.Keys == set i | 0 <= i < |ids| :: ids[i]
    ensures forall i :: 0 <= i < |ids| && LastOccurrence(ids, i) ==> m[ids[i]] == produtos[i]
  {
    m := map[];
    var n := 0;
    while n < |ids|
      invariant 0 <= n <= |ids|
      invariant m.Keys == set i | 0 <= i < n :: ids[i]
      invariant forall i :: 0 <= i < n && LastOccurrence(ids[..n], i) ==> m[ids[i]] == produtos[i]
    {
      forall i | 0 <= i < n && LastOccurrence(ids[..n + 1], i) ensures LastOccurrence(ids[..n], i) {
      }
      m := m[ids[n] := produtos[n]];
      n := n + 1;
    }
    assert ids[..|ids|] == ids;
  }

  /** `produtosPorSubcategoria[id] || []`. */
  function ProductsOf(m: map<int, seq<Product>>, id: int): seq<Product> {
    if id in m then m[id] else []
  }

  /** The "featured" count: the lengths of the lists under `keys`, added up. */
  function FeaturedCount(m: map<int, seq<Product>>, keys: seq<int>): nat {
    if keys == [] then 0 else |ProductsOf(m, keys[0])| + FeaturedCount(m, keys[1..])
  }

  function TotalLength(produtos: seq<seq<Product>>): nat {
    if produtos == [] then 0 else |produtos[0]| + TotalLength(produtos[1..])
  }

  /** With distinct subcategory ids the featured count is the number of
      products fetched. */
  lemma {:induction false} FeaturedCountIsTotal(ids: seq<int>, produtos: seq<seq<Product>>, m: map<int, seq<Product>>)
    requires |ids| == |produtos|
    requires forall i :: 0 <= i < |ids| ==> ids[i] in m && m[ids[i]] == produtos[i]
    ensures FeaturedCount(m, ids) == TotalLength(produtos)
    decreases |ids|
  {
    if ids != [] {
      FeaturedCountIsTotal(ids[1..], produtos[1..], m);
    }
  }

  // ---------------------------------------------------------------------------
  // Page state

  class Page {
    var subcategorias: seq<Subcategory>
    var produtosPorSubcategoria: map<int, seq<Product>>
    var loading: bool

    constructor()
      ensures subcategorias == [] && produtosPorSubcategoria == map[] && loading
    {
      subcategorias := [];
      produtosPorSubcategoria := map[];
      loading := true;
    }

    /** `fetchData`: the subcategories, then one product fetch per
        subcategory, answered in `answers`. */
    method FetchData(subAnswer: Fetched<Option<seq<Subcategory>>>, answers: seq<Fetched<Option<seq<Product>>>>)
      requires |answers| == |ListOrEmpty(subAnswer)|
      modifies this
      ensures subcategorias == ListOrEmpty(subAnswer)
      ensures produtosPorSubcategoria.Keys == set i | 0 <= i < |subcategorias| :: subcategorias[i].id
      ensures forall i :: 0 <= i < |subcategorias| && LastOccurrence(Ids(subcategorias), i) ==>
        produtosPorSubcategoria[subcategorias[i].id] == ListOrEmpty(answers[i])
      ensures !loading
    {
      var subs := ListOrEmpty(subAnswer);
      subcategorias := subs;
      var ids := Ids(subs);
      var produtos := seq(|answers|, i requires 0 <= i < |answers| => ListOrEmpty(answers[i]));
      var m := BuildProductMap(ids, produtos);
      produtosPorSubcategoria := m;
      loading := false;
    }
  }

  function Ids(subs: seq<Subcategory>): (ids: seq<int>)
    ensures |ids| == |subs| && forall i :: 0 <= i < |subs| ==> ids[i] == subs[i].id
  {
    seq(|subs|, i requires 0 <= i < |subs| => subs[i].id)
  }
}
