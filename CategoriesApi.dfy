/**
 * `GET /api/categorias`: the active categories, optionally with their
 * subcategories, of which only the active ones are kept. The database
 * answer is an input; the handler's own work is the branch choice and the
 * post-processing of the rows.
 */
module CategoriesRoute {
  import opened Text
  import opened Seqs
  import opened Catalog
  import opened QueryString

  const InternalError: string := "Erro interno do servidor"

  datatype Response =
    | Categorias(categorias: seq<Category>)
    | Failure(status: int, error: string)

  /** `searchParams.get("include_subcategorias") === "true"`. */
  predicate IncludeSubcategories(ps: Params) {
    Get(ps, "include_subcategorias") == Some("true")
  }

  /** `categoria.subcategorias?.filter((sub) => sub.ativo) || []`. */
  function ActiveSubcategories(subs: Option<seq<Subcategory>>): (r: seq<Subcategory>)
    ensures forall i :: 0 <= i < |r| ==> r[i].ativo
    ensures subs.None? ==> r == []
    ensures subs.Some? ==> |r| <= |subs.value|
  {
    if subs.None? then [] else Filter(subs.value, (s: Subcategory) => s.ativo)
  }

  /** `{ ...categoria, subcategorias: … }`: only the subcategory list changes. */
  function WithActiveSubcategories(c: Category): (r: Category)
    ensures r.(subcategorias := c.subcategorias) == c
    ensures r.subcategorias.Some? && forall i :: 0 <= i < |r.subcategorias.value| ==> r.subcategorias.value[i].ativo
  {
    c.(subcategorias := Some(ActiveSubcategories(c.subcategorias)))
  }

  function MapActive(cs: seq<Category>): (r: seq<Category>)
    ensures |r| == |cs|
    ensures forall i :: 0 <= i < |cs| ==> r[i] == WithActiveSubcategories(cs[i])
  {
    if cs == [] then [] else [WithActiveSubcategories(cs[0])] + MapActive(cs[1..])
  }

  /** The response for the query parameters and the rows the branch's query
      answered with. */
  function Respond(ps: Params, rows: Queried<Category>): (r: Response)
    ensures r.Failure? <==> !rows.Rows?
    ensures r.Failure? ==> r == Failure(500, InternalError)
    ensures rows.Rows? && rows.data.None? ==> r == Categorias([])
    ensures rows.Rows? && rows.data.Some? ==> |r.categorias| == |rows.data.value|
    ensures rows.Rows? && rows.data.Some? && !IncludeSubcategories(ps) ==> r.categorias == rows.data.value
    ensures rows.Rows? && rows.data.Some? && IncludeSubcategories(ps) ==>
      forall i :: 0 <= i < |rows.data.value| ==> r.categorias[i] == WithActiveSubcategories(rows.data.value[i])
  {
    if !rows.Rows? then Failure(500, InternalError)
    else if IncludeSubcategories(ps) then Categorias(if rows.data.Some? then MapActive(rows.data.value) else [])
    else Categorias(if rows.data.Some? then rows.data.value else [])
  }

  /** A subcategory is listed exactly when it was in the row's list and is active. */
  lemma ActiveSubcategoriesExactly(subs: seq<Subcategory>, s: Subcategory)
    ensures s in ActiveSubcategories(Some(subs)) <==> s in subs && s.ativo
  {
    var r := ActiveSubcategories(Some(subs));
    if s in r {
      var i :| 0 <= i < |r| && r[i] == s;
      assert s in multiset(r);
    }
    if s in subs && s.ativo {
      FilterKeeps(subs, (x: Subcategory) => x.ativo, s);
    }
  }

  /** The filter keeps the relative order: it works piecewise over a split list. */
  lemma ActiveSubcategoriesKeepOrder(a: seq<Subcategory>, b: seq<Subcategory>)
    ensures ActiveSubcategories(Some(a + b)) == ActiveSubcategories(Some(a)) + ActiveSubcategories(Some(b))
  {
    FilterConcat(a, b, (x: Subcategory) => x.ativo);
  }

  /** A list that was all active is kept whole. */
  lemma AllActiveKept(subs: seq<Subcategory>)
    requires forall i :: 0 <= i < |subs| ==> subs[i].ativo
    ensures ActiveSubcategories(Some(subs)) == subs
  {
    FilterAll(subs, (x: Subcategory) => x.ativo);
  }
}
