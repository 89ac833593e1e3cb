/**
 * `GET /api/vendedores`: the active salespeople ordered by name, optionally
 * of one store. When the query fails the handler answers with fixed
 * example salespeople flagged `fallback`.
 */
module SalespeopleRoute {
  import opened Text
  import opened Catalog
  import opened QueryString

  /** One call on the query builder. */
  datatype SalesStep =
    | ActiveOnly                    // .eq("ativo", true)
    | OrderBy(column: string)       // .order(column, { ascending: true })
    | StoreIs(id: Option<int>)      // .eq("loja_id", parseInt(loja_id)); None is NaN

  const BaseQuery: seq<SalesStep> := [ActiveOnly, OrderBy("nome")]

  function SalesQuery(ps: Params): seq<SalesStep> {
    var lojaId := Get(ps, "loja_id");
    BaseQuery + (if Truthy(lojaId) then [StoreIs(ParseInt(lojaId.value))] else [])
  }

  /** The handler's `let query` and its conditional reassignment. */
  method BuildQuery(ps: Params) returns (q: seq<SalesStep>)
    ensures q == SalesQuery(ps)
  {
    q := BaseQuery;
    var lojaId := Get(ps, "loja_id");
    if Truthy(lojaId) {
      q := q + [StoreIs(ParseInt(lojaId.value))];
    }
  }

  /** The store filter is added exactly when `loja_id` is present and not
      empty, and it compares with the parsed id. */
  lemma StoreFilterIff(ps: Params)
    ensures (exists i :: 0 <= i < |SalesQuery(ps)| && SalesQuery(ps)[i].StoreIs?) <==> Truthy(Get(ps, "loja_id"))
    ensures Truthy(Get(ps, "loja_id")) ==> SalesQuery(ps)[2] == StoreIs(ParseInt(Get(ps, "loja_id").value))
  {
    var q := SalesQuery(ps);
    if Truthy(Get(ps, "loja_id")) {
      assert q[2].StoreIs?;
    }
  }

  /** The body of the response; `fallback` false stands for no such key. */
  datatype Response = Response(vendedores: seq<Salesperson>, fallback: bool)

  /** The four examples answered when the query reports an error. */
  function QueryErrorExamples(lojaId: Option<int>): seq<Salesperson> {
    [ Salesperson(1, "João Silva", "65999887766", "Consultor de Vendas", true, lojaId),
      Salesperson(2, "Maria Santos", "65998776655", "Especialista em Tintas", true, lojaId),
      Salesperson(3, "Carlos Oliveira", "65997665544", "Especialista em Materiais Elétricos", true, lojaId),
      Salesperson(4, "Ana Costa", "65996554433", "Especialista em Ferramentas", true, lojaId) ]
  }

  /** The two examples answered when the handler throws. */
  function ThrownExamples(): seq<Salesperson> {
    [ Salesperson(1, "João Silva", "65999887766", "Consultor de Vendas", true, Some(1)),
      Salesperson(2, "Maria Santos", "65998776655", "Especialista em Tintas", true, Some(1)) ]
  }

  /** `lojaId ? parseInt(lojaId) : 1`. */
  function ExampleStore(ps: Params): Option<int> {
    var lojaId := Get(ps, "loja_id");
    if Truthy(lojaId) then ParseInt(lojaId.value) else Some(1)
  }

  function Respond(ps: Params, rows: Queried<Salesperson>): (r: Response)
    ensures r.fallback <==> !rows.Rows?
    ensures rows.Rows? ==> r.vendedores == if rows.data.Some? then rows.data.value else []
    ensures rows.QueryError? ==> |r.vendedores| == 4
    ensures rows.Raised? ==> |r.vendedores| == 2
  {
    match rows
    case QueryError => Response(QueryErrorExamples(ExampleStore(ps)), true)
    case Raised => Response(ThrownExamples(), true)
    case Rows(data) => Response(if data.Some? then data.value else [], false)
  }

  /** The examples are active, numbered 1..n, and all of the store asked
      for (store 1 without one, or after an exception). */
  lemma FallbackExamples(ps: Params, rows: Queried<Salesperson>)
    requires !rows.Rows?
    ensures var vs := Respond(ps, rows).vendedores;
      && (forall i :: 0 <= i < |vs| ==> vs[i].id == i + 1 && vs[i].ativo)
      && (rows.QueryError? ==> forall i :: 0 <= i < |vs| ==> vs[i].lojaId == ExampleStore(ps))
      && (rows.Raised? ==> forall i :: 0 <= i < |vs| ==> vs[i].lojaId == Some(1))
  {
    var vs := Respond(ps, rows).vendedores;
    if rows.QueryError? {
      assert vs == QueryErrorExamples(ExampleStore(ps));
    } else {
      assert vs == ThrownExamples();
    }
  }

  /** The example ids are pairwise distinct. */
  lemma ExampleIdsDistinct(ps: Params, rows: Queried<Salesperson>)
    requires !rows.Rows?
    ensures var vs := Respond(ps, rows).vendedores;
      forall i, j :: 0 <= i < j < |vs| ==> vs[i].id != vs[j].id
  {
    FallbackExamples(ps, rows);
  }

  /** With a numeric `loja_id` the query-error examples carry that store. */
  lemma ExamplesOfRequestedStore(ps: Params, n: int)
    requires Get(ps, "loja_id") == Some(IntToString(n))
    ensures forall v :: v in Respond(ps, QueryError).vendedores ==> v.lojaId == Some(n)
  {
    assert ExampleStore(ps) == Some(n) by {
      ParseIntOfIntToString(n);
      assert Truthy(Get(ps, "loja_id"));
    }
    FallbackExamples(ps, QueryError);
  }
}
