/**
 * `GET /api/produtos`: reads the query parameters, builds the product query
 * one filter at a time, pages it with a row range, and reports the page
 * with its pagination block. The database is not modelled: a query is the
 * list of filters the handler adds, `Holds` says what each filter keeps, and
 * the rows and the count the database answers with are inputs.
 */
module ProductsRoute {
  import opened Text
  import opened Seqs
  import opened Catalog
  import opened QueryString
  import opened Arith

  const InternalError: string := "Erro interno do servidor"

  // ---------------------------------------------------------------------------
  // Parameters

  /** `searchParams.get("status") || "ativo"`. */
  function StatusParam(ps: Params): string {
    GetOr(ps, "status", "ativo")
  }

  /** `parseInt(searchParams.get("page") || "1")`; NaN is None. */
  function PageParam(ps: Params): Option<int> {
    ParseInt(GetOr(ps, "page", "1"))
  }

  /** `parseInt(searchParams.get("limit") || "12")`; NaN is None. */
  function LimitParam(ps: Params): Option<int> {
    ParseInt(GetOr(ps, "limit", "12"))
  }

  /** Without the parameters the listing asks for the first twelve active products. */
  lemma Defaults(ps: Params)
    requires Get(ps, "status").None? && Get(ps, "page").None? && Get(ps, "limit").None?
    ensures StatusParam(ps) == "ativo" && PageParam(ps) == Some(1) && LimitParam(ps) == Some(12)
  {
    assert GetOr(ps, "page", "1") == "1" && GetOr(ps, "limit", "12") == "12";
    ParseOne();
    ParseTwelve();
  }

  lemma ParseOne()
    ensures ParseInt("1") == Some(1)
  {
    ParseOneDigit('1');
  }

  lemma ParseTwelve()
    ensures ParseInt("12") == Some(12)
  {
    ParseTwoDigits('1', '2');
  }

  /** The ids of `subcategorias`: each comma-separated piece trimmed and
      `parseInt`-ed, the pieces that are NaN dropped. */
  function ParseIds(pieces: seq<string>): (ids: seq<int>)
    ensures |ids| <= |pieces|
  {
    if pieces == [] then []
    else
      var head := ParseInt(Trim(pieces[0]));
      (if head.Some? then [head.value] else []) + ParseIds(pieces[1..])
  }

  function ParseIdList(csv: string): seq<int> {
    ParseIds(Split(csv, ','))
  }

  /** The decimal rendering of each id. */
  function RenderIds(ids: seq<int>): (pieces: seq<string>)
    ensures |pieces| == |ids|
    ensures forall i :: 0 <= i < |ids| ==> pieces[i] == IntToString(ids[i])
  {
    if ids == [] then [] else [IntToString(ids[0])] + RenderIds(ids[1..])
  }

  lemma {:induction false} ParseRenderedIds(ids: seq<int>)
    ensures ParseIds(RenderIds(ids)) == ids
  {
    if ids != [] {
      ParseRenderedHead(ids);
      ParseRenderedIds(ids[1..]);
    }
  }

  lemma ParseRenderedHead(ids: seq<int>)
    requires ids != []
    ensures ParseIds(RenderIds(ids)) == [ids[0]] + ParseIds(RenderIds(ids[1..]))
  {
    ParseFirstId(ids);
    assert RenderIds(ids)[1..] == RenderIds(ids[1..]);
  }

  lemma ParseFirstId(ids: seq<int>)
    requires ids != []
    ensures ParseIds(RenderIds(ids)) == [ids[0]] + ParseIds(RenderIds(ids)[1..])
  {
    var pieces := RenderIds(ids);
    ParseTrimmedIntToString(ids[0]);
    ParseIdsCons(pieces, ids[0]);
  }

  lemma ParseIdsCons(pieces: seq<string>, n: int)
    requires pieces != [] && ParseInt(Trim(pieces[0])) == Some(n)
    ensures ParseIds(pieces) == [n] + ParseIds(pieces[1..])
  {
  }

  /** A comma-separated list of ids reads back as those ids; the empty list
      joins to "", which splits to one empty piece that parses to NaN. */
  lemma IdListRoundTrip(ids: seq<int>)
    ensures ParseIdList(Join(RenderIds(ids), ",")) == ids
  {
    if ids == [] {
      EmptyIdList();
      return;
    }
    var pieces := RenderIds(ids);
    RenderedIdsHaveNoComma(ids);
    SplitJoin(pieces, ',');
    assert Split(Join(pieces, ","), ',') == pieces;
    ParseRenderedIds(ids);
  }

  lemma EmptyIdList()
    ensures ParseIdList(Join(RenderIds([]), ",")) == []
  {
    assert Join(RenderIds([]), ",") == "";
    assert Split("", ',') == [""];
    assert Trim("") == "";
    ParseIntNaN("");
    assert ParseIds([""]) == [];
  }

  lemma RenderedIdsHaveNoComma(ids: seq<int>)
    ensures forall i :: 0 <= i < |ids| ==> ',' !in RenderIds(ids)[i]
  {
    forall i | 0 <= i < |ids| ensures ',' !in RenderIds(ids)[i] {
      NoCommaInInteger(ids[i]);
    }
  }

  lemma NoCommaInInteger(n: int)
    ensures ',' !in IntToString(n)
  {
    IntToStringChars(n);
    NoCommaInSignedDigits(IntToString(n));
  }

  lemma NoCommaInSignedDigits(s: string)
    requires forall i :: 0 <= i < |s| ==> IsDigit(s[i]) || s[i] == '-'
    ensures ',' !in s
  {
  }

  // ---------------------------------------------------------------------------
  // The query

  /** One call the handler makes on the query builder. */
  datatype Step =
    | StatusIs(status: string)              // .eq("status", status)
    | PromotionOnly                         // .eq("promocao_mes", true)
    | NewOnly                               // .eq("novidade", true)
    | PaintOnly                             // .eq("tipo_tinta", true)
    | ElectricOnly                          // .eq("tipo_eletrico", true)
    | Search(text: string)                  // .or(nome/descricao ilike %text%)
    | SubcategoryIs(id: Option<int>)        // .eq("subcategoria_id", parseInt(..))
    | SubcategoryIn(ids: seq<int>)          // .in("subcategoria_id", ids)
    | Range(from: Option<int>, to: Option<int>)  // .range(offset, offset + limit - 1)

  /** The category is resolved only when no subcategory filter is given. */
  predicate CategoryBranch(ps: Params) {
    Truthy(Get(ps, "categoria")) && !Truthy(Get(ps, "subcategoria")) && !Truthy(Get(ps, "subcategorias"))
  }

  /** The page's row range; a NaN page or limit makes both ends NaN. With
      numbers, the range spans `limit` rows, and for a page from 1 on and a
      positive limit it starts at a row that exists in a long enough table. */
  function PageRange(page: Option<int>, limit: Option<int>): (r: Step)
    ensures r.Range?
    ensures r.from.Some? <==> page.Some? && limit.Some?
    ensures r.to.Some? <==> page.Some? && limit.Some?
    ensures r.from.Some? ==> r.to.value - r.from.value + 1 == limit.value
    ensures page.Some? && limit.Some? && page.value >= 1 && limit.value > 0 ==> r.from.value >= 0
  {
    if page.Some? && limit.Some? then
      var offset := (page.value - 1) * limit.value;
      OffsetNonNegative(page.value, limit.value);
      Range(Some(offset), Some(offset + limit.value - 1))
    else Range(None, None)
  }

  lemma OffsetNonNegative(page: int, limit: int)
    ensures page >= 1 && limit > 0 ==> (page - 1) * limit >= 0
  {
    if page >= 1 && limit > 0 {
      MulMonotone(page - 1, 0, limit);
    }
  }

  /** The first page starts at row 0, and each page starts right after the
      last row of the one before: the ranges number the rows without gap. */
  lemma PageRangesAdjacent(page: int, limit: int)
    ensures PageRange(Some(1), Some(limit)).from == Some(0)
    ensures PageRange(Some(page + 1), Some(limit)).from.value == PageRange(Some(page), Some(limit)).to.value + 1
  {
    assert (page + 1 - 1) * limit == (page - 1) * limit + limit;
  }

  function When(c: bool, f: Step): seq<Step> {
    if c then [f] else []
  }

  function SearchFilter(ps: Params): (r: seq<Step>)
    ensures forall i :: 0 <= i < |r| ==> r[i].Search?
  {
    var busca := Get(ps, "busca");
    if Truthy(busca) then [Search(busca.value)] else []
  }

  function SubcategoryFilter(ps: Params): (r: seq<Step>)
    ensures forall i :: 0 <= i < |r| ==> r[i].SubcategoryIs?
  {
    var sub := Get(ps, "subcategoria");
    if Truthy(sub) then [SubcategoryIs(ParseInt(sub.value))] else []
  }

  function IdListFilter(ps: Params): (r: seq<Step>)
    ensures forall i :: 0 <= i < |r| ==> r[i].SubcategoryIn?
  {
    var subs := Get(ps, "subcategorias");
    if Truthy(subs) && ParseIdList(subs.value) != [] then [SubcategoryIn(ParseIdList(subs.value))] else []
  }

  /** `categorySubIds` is what the lookup of the category's active
      subcategories answered (None for null data). */
  function CategoryFilter(ps: Params, categorySubIds: Option<seq<int>>): (r: seq<Step>)
    ensures forall i :: 0 <= i < |r| ==> r[i].SubcategoryIn?
  {
    if CategoryBranch(ps) && categorySubIds.Some? && categorySubIds.value != [] then [SubcategoryIn(categorySubIds.value)]
    else []
  }

  /** The four flag filters, in the order the handler tests them. */
  function FlagSteps(ps: Params): seq<Step> {
    When(IsTrue(ps, "promocao"), PromotionOnly)
    + When(IsTrue(ps, "novidade"), NewOnly)
    + When(IsTrue(ps, "tipo_tinta"), PaintOnly)
    + When(IsTrue(ps, "tipo_eletrico"), ElectricOnly)
  }

  /** The search and the subcategory selection. */
  function SelectionSteps(ps: Params, categorySubIds: Option<seq<int>>): seq<Step> {
    SearchFilter(ps) + SubcategoryFilter(ps) + IdListFilter(ps) + CategoryFilter(ps, categorySubIds)
  }

  /** The filters of the listing query, in the order the handler adds them. */
  function QuerySteps(ps: Params, categorySubIds: Option<seq<int>>): seq<Step> {
    [StatusIs(StatusParam(ps))] + FlagSteps(ps) + SelectionSteps(ps, categorySubIds)
    + [PageRange(PageParam(ps), LimitParam(ps))]
  }

  /** The handler's `query = query.…` reassignments. */
  method BuildQuery(ps: Params, categorySubIds: Option<seq<int>>) returns (q: seq<Step>)
    ensures q == QuerySteps(ps, categorySubIds)
  {
    q := [StatusIs(StatusParam(ps))];
    q := AddFlagFilters(ps, q);
    q := AddSelectionFilters(ps, categorySubIds, q);
    q := q + [PageRange(PageParam(ps), LimitParam(ps))];
  }

  /** The four `=== "true"` tests. */
  method AddFlagFilters(ps: Params, q0: seq<Step>) returns (q: seq<Step>)
    ensures q == q0 + FlagSteps(ps)
  {
    q := q0;
    var a, b, c, d := When(IsTrue(ps, "promocao"), PromotionOnly), When(IsTrue(ps, "novidade"), NewOnly),
      When(IsTrue(ps, "tipo_tinta"), PaintOnly), When(IsTrue(ps, "tipo_eletrico"), ElectricOnly);
    if Get(ps, "promocao") == Some("true") {
      q := q + [PromotionOnly];
    }
    assert q == q0 + a;
    if Get(ps, "novidade") == Some("true") {
      q := q + [NewOnly];
    }
    assert q == q0 + a + b;
    if Get(ps, "tipo_tinta") == Some("true") {
      q := q + [PaintOnly];
    }
    assert q == q0 + a + b + c;
    if Get(ps, "tipo_eletrico") == Some("true") {
      q := q + [ElectricOnly];
    }
    assert q == q0 + a + b + c + d;
    AppendFour(q0, a, b, c, d);
  }

  /** The search, the subcategory filters and the category resolution. */
  method AddSelectionFilters(ps: Params, categorySubIds: Option<seq<int>>, q0: seq<Step>) returns (q: seq<Step>)
    ensures q == q0 + SelectionSteps(ps, categorySubIds)
  {
    q := q0;
    var busca := Get(ps, "busca");
    if Truthy(busca) {
      q := q + [Search(busca.value)];
    }
    var subcategoria := Get(ps, "subcategoria");
    if Truthy(subcategoria) {
      q := q + [SubcategoryIs(ParseInt(subcategoria.value))];
    }
    assert q == q0 + SearchFilter(ps) + SubcategoryFilter(ps);
    q := AddSubcategorySets(ps, categorySubIds, q);
    AppendFour(q0, SearchFilter(ps), SubcategoryFilter(ps), IdListFilter(ps), CategoryFilter(ps, categorySubIds));
  }

  /** The `subcategorias` id list, or else the category's active subcategories. */
  method AddSubcategorySets(ps: Params, categorySubIds: Option<seq<int>>, q0: seq<Step>) returns (q: seq<Step>)
    ensures q == q0 + IdListFilter(ps) + CategoryFilter(ps, categorySubIds)
  {
    q := q0;
    var subcategorias := Get(ps, "subcategorias");
    if Truthy(subcategorias) {
      var ids := ParseIdList(subcategorias.value);
      if |ids| > 0 {
        q := q + [SubcategoryIn(ids)];
      }
    }
    assert q == q0 + IdListFilter(ps);
    if Truthy(Get(ps, "categoria")) && !Truthy(Get(ps, "subcategoria")) && !Truthy(subcategorias) {
      if categorySubIds.Some? && |categorySubIds.value| > 0 {
        q := q + [SubcategoryIn(categorySubIds.value)];
      }
    }
  }

  lemma AppendFour(a: seq<Step>, b: seq<Step>, c: seq<Step>, d: seq<Step>, e: seq<Step>)
    ensures a + b + c + d + e == a + (b + c + d + e)
  {
  }

  /** The query starts with the status filter and ends with the page range. */
  lemma QueryEnds(ps: Params, categorySubIds: Option<seq<int>>)
    ensures var q := QuerySteps(ps, categorySubIds);
      |q| >= 2 && q[0] == StatusIs(StatusParam(ps)) && q[|q| - 1] == PageRange(PageParam(ps), LimitParam(ps))
  {
  }

  predicate IsFlag(f: Step) {
    f.PromotionOnly? || f.NewOnly? || f.PaintOnly? || f.ElectricOnly?
  }

  lemma SelectionHasNoFlag(ps: Params, categorySubIds: Option<seq<int>>)
    ensures NoFlag(SelectionSteps(ps, categorySubIds))
  {
    var a, b, c, d := SearchFilter(ps), SubcategoryFilter(ps), IdListFilter(ps), CategoryFilter(ps, categorySubIds);
    NoFlagSearch(a);
    NoFlagSubcategory(b);
    NoFlagIn(c);
    NoFlagIn(d);
    NoFlagInFour(a, b, c, d);
  }

  lemma NoFlagSearch(s: seq<Step>)
    requires forall i :: 0 <= i < |s| ==> s[i].Search?
    ensures NoFlag(s)
  {
  }

  lemma NoFlagSubcategory(s: seq<Step>)
    requires forall i :: 0 <= i < |s| ==> s[i].SubcategoryIs?
    ensures NoFlag(s)
  {
  }

  lemma NoFlagIn(s: seq<Step>)
    requires forall i :: 0 <= i < |s| ==> s[i].SubcategoryIn?
    ensures NoFlag(s)
  {
  }

  predicate NoFlag(s: seq<Step>) {
    forall i :: 0 <= i < |s| ==> !IsFlag(s[i])
  }

  lemma NoFlagInFour(a: seq<Step>, b: seq<Step>, c: seq<Step>, d: seq<Step>)
    requires NoFlag(a) && NoFlag(b) && NoFlag(c) && NoFlag(d)
    ensures NoFlag(a + b + c + d)
  {
    var sel := a + b + c + d;
    forall i | 0 <= i < |sel| ensures !IsFlag(sel[i]) {
      if i < |a| {
        assert sel[i] == a[i];
      } else if i < |a| + |b| {
        assert sel[i] == b[i - |a|];
      } else if i < |a| + |b| + |c| {
        assert sel[i] == c[i - |a| - |b|];
      } else {
        assert sel[i] == d[i - |a| - |b| - |c|];
      }
    }
  }


  /** A flag filter can only come from the flag steps. */
  lemma FlagOnlyFromFlagSteps(ps: Params, categorySubIds: Option<seq<int>>, f: Step)
    requires IsFlag(f)
    ensures f in QuerySteps(ps, categorySubIds) <==> f in FlagSteps(ps)
  {
    SelectionHasNoFlag(ps, categorySubIds);
    QueryParts(ps, categorySubIds);
    FlagAmongParts(StatusParam(ps), FlagSteps(ps), SelectionSteps(ps, categorySubIds), PageRange(PageParam(ps), LimitParam(ps)), f);
  }

  /** The listing query is the status filter, the flags, the selection and the range. */
  lemma QueryParts(ps: Params, categorySubIds: Option<seq<int>>)
    ensures QuerySteps(ps, categorySubIds)
      == [StatusIs(StatusParam(ps))] + FlagSteps(ps) + SelectionSteps(ps, categorySubIds) + [PageRange(PageParam(ps), LimitParam(ps))]
  {
  }

  lemma FlagAmongParts(status: string, flags: seq<Step>, sel: seq<Step>, range: Step, f: Step)
    requires IsFlag(f) && range.Range?
    requires forall i :: 0 <= i < |sel| ==> !IsFlag(sel[i])
    ensures f in [StatusIs(status)] + flags + sel + [range] <==> f in flags
  {
    var q := [StatusIs(status)] + flags + sel + [range];
    if f in q {
      var i :| 0 <= i < |q| && q[i] == f;
      assert i != 0 && i != |q| - 1;
      assert forall j :: |flags| < j < |q| - 1 ==> q[j] == sel[j - 1 - |flags|];
      assert flags[i - 1] == f;
    }
    if f in flags {
      var i :| 0 <= i < |flags| && flags[i] == f;
      assert q[i + 1] == f;
    }
  }

  /** The parameter that switches a flag filter on. */
  function FlagParam(f: Step): string
    requires IsFlag(f)
  {
    match f
    case PromotionOnly => "promocao"
    case NewOnly => "novidade"
    case PaintOnly => "tipo_tinta"
    case ElectricOnly => "tipo_eletrico"
  }

  lemma FlagInFlagSteps(ps: Params, f: Step)
    requires IsFlag(f)
    ensures f in FlagSteps(ps) <==> IsTrue(ps, FlagParam(f))
  {
    var a := When(IsTrue(ps, "promocao"), PromotionOnly);
    var b := When(IsTrue(ps, "novidade"), NewOnly);
    var c := When(IsTrue(ps, "tipo_tinta"), PaintOnly);
    var d := When(IsTrue(ps, "tipo_eletrico"), ElectricOnly);
    assert FlagSteps(ps) == a + b + c + d;
    assert f in a + b + c + d <==> f in a || f in b || f in c || f in d;
  }

  /** Each flag filter is in the query exactly when its parameter is the
      string "true". */
  lemma FlagFilter(ps: Params, categorySubIds: Option<seq<int>>, f: Step)
    requires IsFlag(f)
    ensures f in QuerySteps(ps, categorySubIds) <==> IsTrue(ps, FlagParam(f))
  {
    FlagOnlyFromFlagSteps(ps, categorySubIds, f);
    FlagInFlagSteps(ps, f);
  }

  /** Once a subcategory parameter is given, the category lookup has no effect. */
  lemma SubcategoryOverridesCategory(ps: Params, c1: Option<seq<int>>, c2: Option<seq<int>>)
    requires Truthy(Get(ps, "subcategoria")) || Truthy(Get(ps, "subcategorias"))
    ensures QuerySteps(ps, c1) == QuerySteps(ps, c2)
  {
    assert CategoryFilter(ps, c1) == [] == CategoryFilter(ps, c2);
  }

  /** A category without active subcategories adds no restriction: the
      query is the one without a category, and holds no id-set filter. */
  lemma EmptyCategoryUnrestricted(ps: Params, c: Option<seq<int>>)
    requires c.None? || c == Some([])
    ensures QuerySteps(ps, c) == QuerySteps(ps, None)
    ensures CategoryBranch(ps) ==> forall ids :: SubcategoryIn(ids) !in QuerySteps(ps, c)
  {
    assert CategoryFilter(ps, c) == [] == CategoryFilter(ps, None);
    if CategoryBranch(ps) {
      NoIdSetInCategoryBranch(ps, c);
    }
  }

  lemma NoIdSetInCategoryBranch(ps: Params, c: Option<seq<int>>)
    requires CategoryBranch(ps) && (c.None? || c == Some([]))
    ensures forall ids :: SubcategoryIn(ids) !in QuerySteps(ps, c)
  {
    assert SubcategoryFilter(ps) == [] && IdListFilter(ps) == [] && CategoryFilter(ps, c) == [];
    assert SelectionSteps(ps, c) == SearchFilter(ps);
    QueryParts(ps, c);
    FlagStepsAreFlags(ps);
    NoIdSetAmongParts(StatusParam(ps), FlagSteps(ps), SearchFilter(ps), PageRange(PageParam(ps), LimitParam(ps)));
  }

  lemma NoIdSetAmongParts(status: string, flags: seq<Step>, search: seq<Step>, range: Step)
    requires range.Range?
    requires forall i :: 0 <= i < |flags| ==> IsFlag(flags[i])
    requires forall i :: 0 <= i < |search| ==> search[i].Search?
    ensures forall ids :: SubcategoryIn(ids) !in [StatusIs(status)] + flags + search + [range]
  {
    var q := [StatusIs(status)] + flags + search + [range];
    assert forall i :: 0 <= i < |q| ==> !q[i].SubcategoryIn? by {
      forall i | 0 <= i < |q| ensures !q[i].SubcategoryIn? {
        if 1 <= i <= |flags| {
          assert q[i] == flags[i - 1];
        } else if |flags| < i < |q| - 1 {
          assert q[i] == search[i - 1 - |flags|];
        }
      }
    }
  }

  lemma FlagStepsAreFlags(ps: Params)
    ensures forall i :: 0 <= i < |FlagSteps(ps)| ==> IsFlag(FlagSteps(ps)[i])
  {
  }

  // ---------------------------------------------------------------------------
  // What a filter keeps

  /** `ilike '%t%'` on ASCII text: `t` occurs in `s`, ignoring case. The
      text is taken literally; `%` and `_` in it are not wildcards here. */
  predicate ContainsIgnoringCase(s: string, t: string) {
    exists i :: 0 <= i <= |s| && OccursAt(ToLower(s), ToLower(t), i)
  }

  predicate OccursAt(s: string, t: string, i: int) {
    0 <= i <= |s| - |t| && s[i..i + |t|] == t
  }

  /** Whether product `p` passes filter `f`. The range does not filter; it
      pages (see `Window`). A NaN subcategory id matches no product. */
  predicate Holds(f: Step, p: Product) {
    match f
    case StatusIs(s) => p.status == s
    case PromotionOnly => p.promocaoMes
    case NewOnly => p.novidade
    case PaintOnly => p.tipoTinta
    case ElectricOnly => p.tipoEletrico
    case Search(t) => ContainsIgnoringCase(p.nome, t) || (p.descricao.Some? && ContainsIgnoringCase(p.descricao.value, t))
    case SubcategoryIs(id) => id == Some(p.subcategoriaId)
    case SubcategoryIn(ids) => p.subcategoriaId in ids
    case Range(_, _) => true
  }

  predicate MatchesAll(q: seq<Step>, p: Product) {
    forall i :: 0 <= i < |q| ==> Holds(q[i], p)
  }

  /** The rows, in the database's order, that pass every filter of `q`. */
  function Matching(db: seq<Product>, q: seq<Step>): seq<Product> {
    Filter(db, p => MatchesAll(q, p))
  }

  /** `range(from, from + count - 1)` over the ordered matching rows. */
  function Window<T>(rows: seq<T>, from: nat, count: nat): (w: seq<T>)
    ensures |w| == Max(0, Min(count, |rows| - from))
    ensures from + |w| <= |rows| ==> w == rows[from..from + |w|]
  {
    rows[Min(from, |rows|)..Min(from + count, |rows|)]
  }

  /** Two windows side by side read as one. */
  lemma WindowsAdjacent<T>(rows: seq<T>, from: nat, c1: nat, c2: nat)
    ensures Window(rows, from, c1) + Window(rows, from + c1, c2) == Window(rows, from, c1 + c2)
  {
    var a, b, c := Min(from, |rows|), Min(from + c1, |rows|), Min(from + c1 + c2, |rows|);
    assert rows[a..b] + rows[b..c] == rows[a..c];
  }

  /** The rows a numeric range returns from the ordered matching rows. */
  function RangeRows<T>(rows: seq<T>, r: Step): (w: seq<T>)
    requires r.Range? && r.from.Some? && r.to.Some? && 0 <= r.from.value <= r.to.value + 1
    ensures |w| <= r.to.value - r.from.value + 1
  {
    Window(rows, r.from.value, r.to.value - r.from.value + 1)
  }

  /** The rows of page `page`: what the handler's range returns. */
  function Page<T>(rows: seq<T>, page: int, limit: int): (w: seq<T>)
    requires page >= 1 && limit > 0
    ensures |w| <= limit
  {
    RangeRows(rows, PageRange(Some(page), Some(limit)))
  }

  /** A page holds `limit` rows while the table lasts, the rest of the table
      on the last page, and nothing beyond it. */
  lemma PageSize<T>(rows: seq<T>, page: int, limit: int)
    requires page >= 1 && limit > 0
    ensures page * limit <= |rows| ==> |Page(rows, page, limit)| == limit
    ensures (page - 1) * limit < |rows| < page * limit ==> Page(rows, page, limit) == rows[(page - 1) * limit..]
    ensures |rows| <= (page - 1) * limit ==> Page(rows, page, limit) == []
  {
    assert page * limit == (page - 1) * limit + limit;
  }

  /** Consecutive pages follow each other without gap or overlap. */
  lemma PagesTile<T>(rows: seq<T>, page: int, limit: int)
    requires page >= 1 && limit > 0
    ensures var r := PageRange(Some(page), Some(limit));
      Page(rows, page, limit) + Page(rows, page + 1, limit) == Window(rows, r.from.value, 2 * limit)
  {
    var r := PageRange(Some(page), Some(limit));
    PageRangesAdjacent(page, limit);
    WindowsAdjacent(rows, r.from.value, limit, limit);
  }

  /** Pages 1 to k, one after the other. */
  function FirstPages<T>(rows: seq<T>, k: nat, limit: int): seq<T>
    requires limit > 0
  {
    if k == 0 then [] else FirstPages(rows, k - 1, limit) + Page(rows, k, limit)
  }

  /** The rows the database answers for a query ending in its range: the
      matching rows inside the range. A range with a NaN end (None) is not
      modelled. */
  function Listed(db: seq<Product>, q: seq<Step>): Option<seq<Product>>
    requires |q| > 0 && q[|q| - 1].Range?
  {
    var r := q[|q| - 1];
    if r.from.Some? && r.to.Some? && 0 <= r.from.value <= r.to.value + 1 then
      Some(RangeRows(Matching(db, q), r))
    else None
  }

  /** The query the handler sends lists exactly page `page` of its matching rows. */
  lemma HandlerListsPage(db: seq<Product>, ps: Params, c: Option<seq<int>>)
    requires PageParam(ps).Some? && PageParam(ps).value >= 1
    requires LimitParam(ps).Some? && LimitParam(ps).value > 0
    ensures var q := QuerySteps(ps, c);
      && |q| > 0 && q[|q| - 1].Range?
      && Listed(db, q) == Some(Page(Matching(db, q), PageParam(ps).value, LimitParam(ps).value))
  {
    var q := QuerySteps(ps, c);
    var page, limit := PageParam(ps).value, LimitParam(ps).value;
    QueryEnds(ps, c);
    ListedPage(db, q, page, limit);
  }

  /** A query ending in the range of page `page` lists that page. */
  lemma ListedPage(db: seq<Product>, q: seq<Step>, page: int, limit: int)
    requires page >= 1 && limit > 0
    requires |q| > 0 && q[|q| - 1] == PageRange(Some(page), Some(limit))
    ensures Listed(db, q) == Some(Page(Matching(db, q), page, limit))
  {
  }

  /** Page k is the window of `limit` rows after the first k - 1 pages. */
  lemma PageIsWindow<T>(rows: seq<T>, k: int, limit: int)
    requires k >= 1 && limit > 0
    ensures (k - 1) * limit >= 0
    ensures Page(rows, k, limit) == Window(rows, (k - 1) * limit, limit)
  {
    OffsetNonNegative(k, limit);
  }

  /** Pages 1 to k are the first k * limit rows. */
  lemma {:induction false} FirstPagesPrefix<T>(rows: seq<T>, k: nat, limit: int)
    requires limit > 0
    ensures k * limit >= 0
    ensures FirstPages(rows, k, limit) == Window(rows, 0, k * limit)
  {
    MulMonotone(k, 0, limit);
    if k > 0 {
      var before := (k - 1) * limit;
      FirstPagesPrefix(rows, k - 1, limit);
      PageIsWindow(rows, k, limit);
      assert k * limit == before + limit;
      WindowsAdjacent(rows, 0, before, limit);
    }
  }

  /** The `totalPages` pages of a listing whose count is right hold exactly
      its rows, in order. */
  lemma PagesCoverListing<T>(rows: seq<T>, limit: int)
    requires limit > 0
    ensures FirstPages(rows, CeilDiv(|rows|, limit), limit) == rows
  {
    var n := CeilDiv(|rows|, limit);
    FirstPagesPrefix(rows, n, limit);
    assert rows[0..|rows|] == rows;
  }

  // ---------------------------------------------------------------------------
  // Pagination and the response

  /** `Math.ceil(total / limit)` for a positive limit. */
  function CeilDiv(total: nat, limit: int): (n: nat)
    requires limit > 0
    ensures n * limit >= total
    ensures n == 0 || (n - 1) * limit < total
  {
    var n := (total + limit - 1) / limit;
    DivModUnique(total + limit - 1, limit, n, (total + limit - 1) % limit);
    n
  }

  /** The pagination block. A NaN page is serialised as `null` (None). */
  datatype Pagination = Pagination(page: Option<int>, limit: int, total: nat, totalPages: nat, hasNext: bool, hasPrev: bool)

  /** `Math.ceil(total / limit)` pages; a NaN page compares false both ways. */
  function Paginate(page: Option<int>, limit: int, total: nat): Pagination
    requires limit > 0
  {
    var n := CeilDiv(total, limit);
    Pagination(page, limit, total, n, page.Some? && page.value < n, page.Some? && page.value > 1)
  }

  /** There is a next page exactly when rows remain after this page, and a
      previous one exactly when this is not the first; a NaN page has neither. */
  lemma HasNextIff(page: Option<int>, limit: int, total: nat)
    requires limit > 0
    ensures Paginate(page, limit, total).hasNext <==> page.Some? && page.value * limit < total
    ensures Paginate(page, limit, total).hasPrev <==> page.Some? && page.value > 1
  {
    var n := CeilDiv(total, limit);
    if page.Some? {
      if page.value >= n {
        MulMonotone(page.value, n, limit);
      } else {
        MulMonotone(n as int - 1, page.value, limit);
      }
    }
  }

  datatype Response =
    | Listing(produtos: seq<Product>, pagination: Pagination)
    | Failure(status: int, error: string)

  /** The response given the listing rows and the count. A query error and a
      thrown exception anywhere give 500; a count without a value counts 0. */
  function Respond(page: Option<int>, limit: int, rows: Fetched<seq<Product>>, count: Fetched<nat>): (r: Response)
    requires limit > 0
    ensures r.Failure? <==> !rows.Body? || count.Thrown?
    ensures r.Failure? ==> r == Failure(500, InternalError)
    ensures r.Listing? ==> r.produtos == rows.value
    ensures r.Listing? ==> r.pagination == Paginate(page, limit, if count.Body? then count.value else 0)
  {
    if !rows.Body? || count.Thrown? then Failure(500, InternalError)
    else Listing(rows.value, Paginate(page, limit, if count.Body? then count.value else 0))
  }

  /** A response's `hasNext` and `hasPrev` in terms of the count it got.
      A NaN page has neither; a missing count offers no next page from page 0
      on (a negative page still compares below zero pages). */
  lemma RespondNavigation(page: Option<int>, limit: int, rows: Fetched<seq<Product>>, count: Fetched<nat>)
    requires limit > 0
    ensures var r := Respond(page, limit, rows, count);
      r.Listing? ==>
        && (r.pagination.hasNext <==> page.Some? && page.value * limit < (if count.Body? then count.value else 0))
        && (r.pagination.hasPrev <==> page.Some? && page.value > 1)
        && (page.None? ==> r.pagination.page.None? && !r.pagination.hasNext && !r.pagination.hasPrev)
        && (!count.Body? && page.Some? && page.value >= 0 ==> !r.pagination.hasNext)
  {
    var total := if count.Body? then count.value else 0;
    HasNextIff(page, limit, total);
    if page.Some? && page.value >= 0 {
      MulMonotone(page.value, 0, limit);
    }
  }


  // ---------------------------------------------------------------------------
  // The total

  /** The count query as written: only the status filter. */
  function CountQuery(ps: Params): seq<Step> {
    [StatusIs(StatusParam(ps))]
  }

  /** The count the pagination block needs: the listing's own filters
      without the range. */
  function CorrectedCountQuery(q: seq<Step>): seq<Step> {
    Filter(q, (f: Step) => !f.Range?)
  }

  /** The listing never matches more rows than the count as written counts. */
  lemma CountBoundsListing(db: seq<Product>, ps: Params, c: Option<seq<int>>)
    ensures |Matching(db, QuerySteps(ps, c))| <= |Matching(db, CountQuery(ps))|
  {
    var q := QuerySteps(ps, c);
    forall p | MatchesAll(q, p) ensures MatchesAll(CountQuery(ps), p) {
      assert Holds(q[0], p);
    }
    FilterWeaker(db, p => MatchesAll(q, p), p => MatchesAll(CountQuery(ps), p));
  }

  /** The corrected count counts exactly the rows the listing pages through. */
  lemma CorrectedCountMatchesListing(db: seq<Product>, q: seq<Step>)
    ensures Matching(db, CorrectedCountQuery(q)) == Matching(db, q)
  {
    var cq := CorrectedCountQuery(q);
    forall p ensures MatchesAll(cq, p) == MatchesAll(q, p) {
      if MatchesAll(cq, p) {
        forall i | 0 <= i < |q| ensures Holds(q[i], p) {
          if !q[i].Range? {
            FilterKeeps(q, (f: Step) => !f.Range?, q[i]);
            var j :| 0 <= j < |cq| && cq[j] == q[i];
          }
        }
      }
      if MatchesAll(q, p) {
        forall j | 0 <= j < |cq| ensures Holds(cq[j], p) {
          FilterFrom(q, (f: Step) => !f.Range?, j);
        }
      }
    }
    FilterSame(db, p => MatchesAll(cq, p), p => MatchesAll(q, p));
  }

  /** With the corrected count, "next" is offered exactly when the next page
      of the listing has rows. */
  lemma CorrectedHasNext(db: seq<Product>, q: seq<Step>, page: int, limit: int)
    requires page >= 1 && limit > 0
    ensures Paginate(Some(page), limit, |Matching(db, CorrectedCountQuery(q))|).hasNext
        <==> |Page(Matching(db, q), page + 1, limit)| > 0
  {
    CorrectedCountMatchesListing(db, q);
    HasNextIff(Some(page), limit, |Matching(db, q)|);
    PageIsWindow(Matching(db, q), page + 1, limit);
  }

  /** `?promocao=true&limit=1`. */
  function PromotionsOnePerPage(): Params {
    [("promocao", "true"), ("limit", "1")]
  }

  lemma PromotionsParams()
    ensures var ps := PromotionsOnePerPage();
      && Get(ps, "promocao") == Some("true") && Get(ps, "limit") == Some("1")
      && Get(ps, "status").None? && Get(ps, "page").None? && Get(ps, "busca").None?
      && Get(ps, "novidade").None? && Get(ps, "tipo_tinta").None? && Get(ps, "tipo_eletrico").None?
      && Get(ps, "subcategoria").None? && Get(ps, "subcategorias").None?
  {
    var ps := PromotionsOnePerPage();
    assert ps[1..] == [("limit", "1")] && ps[1..][1..] == [];
  }

  /** The query of a promotions listing with no other parameter but the limit 1. */
  lemma PromotionsQuery(ps: Params)
    requires Get(ps, "promocao") == Some("true") && Get(ps, "limit") == Some("1")
    requires Get(ps, "status").None? && Get(ps, "page").None? && Get(ps, "busca").None?
    requires Get(ps, "novidade").None? && Get(ps, "tipo_tinta").None? && Get(ps, "tipo_eletrico").None?
    requires Get(ps, "subcategoria").None? && Get(ps, "subcategorias").None?
    ensures QuerySteps(ps, None) == [StatusIs("ativo"), PromotionOnly, Range(Some(0), Some(0))]
    ensures CountQuery(ps) == [StatusIs("ativo")]
    ensures PageParam(ps) == Some(1) && LimitParam(ps) == Some(1)
  {
    ParseOne();
    assert StatusParam(ps) == "ativo";
    assert GetOr(ps, "page", "1") == "1" && GetOr(ps, "limit", "12") == "1";
    PromotionFlagOnly(ps);
    NoSelection(ps);
    assert PageRange(PageParam(ps), LimitParam(ps)) == Range(Some(0), Some(0));
    QueryParts(ps, None);
    ThreeSteps(StatusIs("ativo"), PromotionOnly, Range(Some(0), Some(0)));
  }

  lemma ThreeSteps(a: Step, b: Step, c: Step)
    ensures [a] + [b] + [] + [c] == [a, b, c]
  {
  }

  lemma PromotionFlagOnly(ps: Params)
    requires IsTrue(ps, "promocao") && !IsTrue(ps, "novidade") && !IsTrue(ps, "tipo_tinta") && !IsTrue(ps, "tipo_eletrico")
    ensures FlagSteps(ps) == [PromotionOnly]
  {
    assert When(IsTrue(ps, "promocao"), PromotionOnly) == [PromotionOnly];
    assert When(IsTrue(ps, "novidade"), NewOnly) == [];
    assert When(IsTrue(ps, "tipo_tinta"), PaintOnly) == [];
    assert When(IsTrue(ps, "tipo_eletrico"), ElectricOnly) == [];
  }

  lemma NoSelection(ps: Params)
    requires Get(ps, "busca").None? && Get(ps, "subcategoria").None? && Get(ps, "subcategorias").None?
    ensures SelectionSteps(ps, None) == []
  {
    assert SearchFilter(ps) == [] && SubcategoryFilter(ps) == [] && IdListFilter(ps) == [];
    assert CategoryFilter(ps, None) == [];
  }

  lemma MatchingPromotions(promoted: Product, regular: Product)
    requires promoted.status == "ativo" && promoted.promocaoMes
    requires regular.status == "ativo" && !regular.promocaoMes
    ensures Matching([promoted, regular], [StatusIs("ativo"), PromotionOnly, Range(Some(0), Some(0))]) == [promoted]
    ensures Matching([promoted, regular], [StatusIs("ativo")]) == [promoted, regular]
  {
    PromotedOnly(promoted, regular);
    BothActive(promoted, regular);
  }

  lemma PromotedOnly(promoted: Product, regular: Product)
    requires promoted.status == "ativo" && promoted.promocaoMes && !regular.promocaoMes
    ensures Matching([promoted, regular], [StatusIs("ativo"), PromotionOnly, Range(Some(0), Some(0))]) == [promoted]
  {
    var q := [StatusIs("ativo"), PromotionOnly, Range(Some(0), Some(0))];
    assert !Holds(q[1], regular);
    assert MatchesAll(q, promoted) by {
      assert Holds(q[0], promoted) && Holds(q[1], promoted) && Holds(q[2], promoted);
    }
    MatchingPair(promoted, regular, q);
  }

  lemma BothActive(promoted: Product, regular: Product)
    requires promoted.status == "ativo" && regular.status == "ativo"
    ensures Matching([promoted, regular], [StatusIs("ativo")]) == [promoted, regular]
  {
    var c := [StatusIs("ativo")];
    assert MatchesAll(c, regular) by { assert Holds(c[0], regular); }
    assert MatchesAll(c, promoted) by { assert Holds(c[0], promoted); }
    MatchingPair(promoted, regular, c);
  }

  /** `Matching` over a two-row table. */
  lemma MatchingPair(a: Product, b: Product, q: seq<Step>)
    ensures MatchesAll(q, a) && MatchesAll(q, b) ==> Matching([a, b], q) == [a, b]
    ensures MatchesAll(q, a) && !MatchesAll(q, b) ==> Matching([a, b], q) == [a]
  {
    FilterPair(a, b, p => MatchesAll(q, p));
  }

  /** As written, a promotions listing one row per page, over one promoted
      and one regular active product, offers a next page that is empty. */
  lemma TotalIgnoresFilters(promoted: Product, regular: Product)
    requires promoted.status == "ativo" && promoted.promocaoMes
    requires regular.status == "ativo" && !regular.promocaoMes
    ensures var ps := PromotionsOnePerPage();
      var db := [promoted, regular];
      var q := QuerySteps(ps, None);
      && LimitParam(ps) == Some(1) && PageParam(ps) == Some(1)
      && |Matching(db, CountQuery(ps))| == 2
      && Matching(db, q) == [promoted]
      && Paginate(Some(1), 1, 2).hasNext
      && Page(Matching(db, q), 2, 1) == []
  {
    PromotionsParams();
    PromotionsQuery(PromotionsOnePerPage());
    MatchingPromotions(promoted, regular);
    HasNextIff(Some(1), 1, 2);
    PageIsWindow([promoted], 2, 1);
  }
}
