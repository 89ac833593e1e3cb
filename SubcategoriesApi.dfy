/**
 * `GET /api/subcategorias`: the active subcategories with their category,
 * ordered by `ordem` then `nome`, optionally restricted to one category,
 * and their number. The database answer is an input; the query is the list
 * of builder calls the handler makes.
 */
module SubcategoriesRoute {
  import opened Text
  import opened Catalog
  import opened QueryString

  const InternalError: string := "Erro interno do servidor"

  /** One call on the query builder. */
  datatype SubStep =
    | ActiveOnly                 // .eq("ativo", true)
    | OrderBy(column: string)    // .order(column, { ascending: true })
    | CategoryIs(id: int)        // .eq("categoria_id", id)

  /** The calls made before any parameter is looked at. */
  const BaseQuery: seq<SubStep> := [ActiveOnly, OrderBy("ordem"), OrderBy("nome")]

  /** The category id to filter on: `categoria` present, non-empty and
      numeric for `parseInt`. */
  function CategoryParam(ps: Params): Option<int> {
    var c := Get(ps, "categoria");
    if Truthy(c) then ParseInt(c.value) else None
  }

  function SubQuery(ps: Params): seq<SubStep> {
    BaseQuery + (if CategoryParam(ps).Some? then [CategoryIs(CategoryParam(ps).value)] else [])
  }

  /** The handler's `let query` and its guarded reassignment. */
  method BuildQuery(ps: Params) returns (q: seq<SubStep>)
    ensures q == SubQuery(ps)
  {
    q := BaseQuery;
    var categoriaId := Get(ps, "categoria");
    if Truthy(categoriaId) {
      var n := ParseInt(categoriaId.value);
      if n.Some? {
        q := q + [CategoryIs(n.value)];
      }
    }
  }

  /** The category filter is added exactly when the parameter parses, and
      then with the parsed id; there is at most one. */
  lemma CategoryFilterIff(ps: Params, id: int)
    ensures CategoryIs(id) in SubQuery(ps) <==> Truthy(Get(ps, "categoria")) && ParseInt(Get(ps, "categoria").value) == Some(id)
  {
    assert CategoryIs(id) !in BaseQuery;
  }

  /** A non-numeric `categoria` is ignored: the query is the unfiltered one. */
  lemma NonNumericIgnored(ps: Params)
    requires Truthy(Get(ps, "categoria")) && ParseInt(Get(ps, "categoria").value).None?
    ensures SubQuery(ps) == BaseQuery
  {
  }

  /** Whether row `s` passes step `f`; ordering keeps every row. */
  predicate Holds(f: SubStep, s: Subcategory) {
    match f
    case ActiveOnly => s.ativo
    case OrderBy(_) => true
    case CategoryIs(id) => s.categoriaId == id
  }

  /** A row passes the handler's query exactly when it is active and, if a
      numeric category was asked for, belongs to it. */
  lemma QueryKeeps(ps: Params, s: Subcategory)
    ensures (forall i :: 0 <= i < |SubQuery(ps)| ==> Holds(SubQuery(ps)[i], s)) <==>
      s.ativo && (CategoryParam(ps).Some? ==> s.categoriaId == CategoryParam(ps).value)
  {
    var q := SubQuery(ps);
    assert q[0] == ActiveOnly;
    if CategoryParam(ps).Some? {
      assert q[3] == CategoryIs(CategoryParam(ps).value);
    }
  }

  datatype Response =
    | Listing(subcategorias: Option<seq<Subcategory>>, total: nat)
    | Failure(status: int, error: string)

  /** `{ subcategorias, total: subcategorias?.length || 0 }`, or 500. */
  function Respond(rows: Queried<Subcategory>): (r: Response)
    ensures r.Failure? <==> !rows.Rows?
    ensures r.Failure? ==> r == Failure(500, InternalError)
    ensures r.Listing? ==> r.subcategorias == rows.data
    ensures r.Listing? && rows.data.Some? ==> r.total == |rows.data.value|
    ensures r.Listing? ==> (r.total == 0 <==> rows.data.None? || rows.data.value == [])
  {
    if !rows.Rows? then Failure(500, InternalError)
    else Listing(rows.data, if rows.data.Some? then |rows.data.value| else 0)
  }
}
