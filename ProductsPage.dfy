/**
 * The product listing page: it copies its route's query parameters into a
 * `URLSearchParams`, forwards a whitelisted subset to the products endpoint
 * with a fixed limit of 50, loads the category when one is asked for, and
 * picks the heading. `URLSearchParams` is modelled as a class over its list
 * of name/value pairs.
 */
module ProductsPage {
  import opened Text
  import opened Seqs
  import opened Catalog
  import opened QueryString

  // ---------------------------------------------------------------------------
  // URLSearchParams

  /** The pairs without any named `name`. */
  function RemoveAll(ps: Params, name: string): (r: Params)
    ensures forall i :: 0 <= i < |r| ==> r[i].0 != name
  {
    Filter(ps, (e: (string, string)) => e.0 != name)
  }

  predicate Has(ps: Params, name: string) {
    exists i :: 0 <= i < |ps| && ps[i].0 == name
  }

  /** `set` on a list holding `name`: the first pair takes the value, the
      later ones go. */
  function ReplaceFirst(ps: Params, name: string, value: string): Params
    requires Has(ps, name)
  {
    if ps[0].0 == name then [(name, value)] + RemoveAll(ps[1..], name)
    else
      assert ps[0].0 != name && Has(ps[1..], name) by {
        var i :| 0 <= i < |ps| && ps[i].0 == name;
        assert ps[1..][i - 1] == ps[i];
      }
      [ps[0]] + ReplaceFirst(ps[1..], name, value)
  }

  /** `URLSearchParams.set(name, value)`. */
  function SetParam(ps: Params, name: string, value: string): Params {
    if Has(ps, name) then ReplaceFirst(ps, name, value) else ps + [(name, value)]
  }

  /** After `set`, `get` finds the new value. */
  lemma {:induction false} GetAfterSet(ps: Params, name: string, value: string)
    ensures Get(SetParam(ps, name, value), name) == Some(value)
    decreases |ps|
  {
    if Has(ps, name) {
      if ps[0].0 != name {
        assert Has(ps[1..], name) by {
          var i :| 0 <= i < |ps| && ps[i].0 == name;
          assert ps[1..][i - 1] == ps[i];
        }
        GetAfterSet(ps[1..], name, value);
      }
    } else {
      GetAppendAbsent(ps, name, value);
    }
  }

  lemma {:induction false} GetAppendAbsent(ps: Params, name: string, value: string)
    requires !Has(ps, name)
    ensures Get(ps + [(name, value)], name) == Some(value)
    decreases |ps|
  {
    if ps != [] {
      assert (ps + [(name, value)])[1..] == ps[1..] + [(name, value)];
      assert !Has(ps[1..], name) by {
        forall i | 0 <= i < |ps[1..]| ensures ps[1..][i].0 != name {
          assert ps[1..][i] == ps[i + 1];
        }
      }
      GetAppendAbsent(ps[1..], name, value);
    }
  }

  /** `set` leaves every other name's `get` alone. */
  lemma {:induction false} GetOtherAfterSet(ps: Params, name: string, value: string, other: string)
    requires other != name
    ensures Get(SetParam(ps, name, value), other) == Get(ps, other)
    decreases |ps|
  {
    if Has(ps, name) {
      GetOtherAfterReplace(ps, name, value, other);
    } else {
      GetOtherAfterAppend(ps, name, value, other);
    }
  }

  lemma {:induction false} GetOtherAfterReplace(ps: Params, name: string, value: string, other: string)
    requires other != name && Has(ps, name)
    ensures Get(ReplaceFirst(ps, name, value), other) == Get(ps, other)
    decreases |ps|
  {
    if ps[0].0 == name {
      GetOtherAfterRemove(ps[1..], name, other);
    } else {
      assert Has(ps[1..], name) by {
        var i :| 0 <= i < |ps| && ps[i].0 == name;
        assert ps[1..][i - 1] == ps[i];
      }
      GetOtherAfterReplace(ps[1..], name, value, other);
    }
  }

  lemma {:induction false} GetOtherAfterRemove(ps: Params, name: string, other: string)
    requires other != name
    ensures Get(RemoveAll(ps, name), other) == Get(ps, other)
    decreases |ps|
  {
    if ps != [] {
      GetOtherAfterRemove(ps[1..], name, other);
      var keep := (e: (string, string)) => e.0 != name;
      assert RemoveAll(ps, name) == Filter(ps, keep);
      assert Filter(ps, keep) == (if keep(ps[0]) then [ps[0]] else []) + Filter(ps[1..], keep);
    }
  }

  lemma {:induction false} GetOtherAfterAppend(ps: Params, name: string, value: string, other: string)
    requires other != name
    ensures Get(ps + [(name, value)], other) == Get(ps, other)
    decreases |ps|
  {
    if ps != [] {
      assert (ps + [(name, value)])[1..] == ps[1..] + [(name, value)];
      GetOtherAfterAppend(ps[1..], name, value, other);
    }
  }

  /** After `set`, exactly one pair carries the name. */
  lemma {:induction false} SetLeavesOnePair(ps: Params, name: string, value: string)
    ensures OnePairNamed(SetParam(ps, name, value), name, value)
    decreases |ps|
  {
    var r := SetParam(ps, name, value);
    if !Has(ps, name) {
      assert r[|ps|] == (name, value);
    } else if ps[0].0 == name {
      var t := RemoveAll(ps[1..], name);
      assert r == [(name, value)] + t;
      assert r[0] == (name, value);
      assert forall j :: 1 <= j < |r| ==> r[j] == t[j - 1];
    } else {
      HasTail(ps, name);
      SetLeavesOnePair(ps[1..], name, value);
      ConsKeepsOnePair(ps[0], SetParam(ps[1..], name, value), name, value);
    }
  }

  /** The pair `(name, value)` occurs once, and no other pair carries `name`. */
  predicate OnePairNamed(r: Params, name: string, value: string) {
    exists i :: 0 <= i < |r| && r[i] == (name, value) && forall j :: 0 <= j < |r| && j != i ==> r[j].0 != name
  }

  lemma ConsKeepsOnePair(x: (string, string), t: Params, name: string, value: string)
    requires x.0 != name && OnePairNamed(t, name, value)
    ensures OnePairNamed([x] + t, name, value)
  {
    var r := [x] + t;
    var i :| 0 <= i < |t| && t[i] == (name, value) && forall j :: 0 <= j < |t| && j != i ==> t[j].0 != name;
    assert r[i + 1] == (name, value);
    forall j | 0 <= j < |r| && j != i + 1 ensures r[j].0 != name {
      if j > 0 {
        assert r[j] == t[j - 1];
      }
    }
  }


  /** What is left to do of `set` from position `i` on, given whether the
      name was already met. */
  function SetRest(rest: Params, name: string, value: string, found: bool): Params {
    if found then RemoveAll(rest, name) else SetParam(rest, name, value)
  }

  class SearchParams {
    var entries: Params

    constructor()
      ensures entries == []
    {
      entries := [];
    }

    function GetParam(name: string): Option<string>
      reads this
    {
      Get(entries, name)
    }

    /** `set(name, value)`. */
    method Set(name: string, value: string)
      modifies this
      ensures entries == SetParam(old(entries), name, value)
    {
      entries := SetPairs(entries, name, value);
    }
  }

  /** The walk `set` makes over the pairs. */
  method SetPairs(es: Params, name: string, value: string) returns (r: Params)
    ensures r == SetParam(es, name, value)
  {
    r := [];
    var found := false;
    var i := 0;
    while i < |es|
      invariant 0 <= i <= |es|
      invariant r + SetRest(es[i..], name, value, found) == SetParam(es, name, value)
    {
      SetStep(es[i..], name, value, found);
      assert es[i..][1..] == es[i + 1..];
      var out := StepOut(es[i], name, value, found);
      Regroup(r, out, SetRest(es[i + 1..], name, value, found || es[i].0 == name));
      r := r + out;
      found := found || es[i].0 == name;
      i := i + 1;
    }
    SetRestEmpty(name, value, found);
    assert es[i..] == [];
    if !found {
      r := r + [(name, value)];
    }
  }

  lemma Regroup(r: Params, out: Params, rest: Params)
    ensures r + (out + rest) == (r + out) + rest
  {
  }

  /** What `set` keeps of one pair: the new pair in place of the first
      named `name`, nothing for a later one, any other pair unchanged. */
  function StepOut(e: (string, string), name: string, value: string, found: bool): Params {
    if e.0 == name then (if found then [] else [(name, value)]) else [e]
  }

  lemma SetRestEmpty(name: string, value: string, found: bool)
    ensures SetRest([], name, value, found) == if found then [] else [(name, value)]
  {
    assert !Has([], name);
  }

  /** One pair of `set`'s walk. */
  lemma SetStep(rest: Params, name: string, value: string, found: bool)
    requires rest != []
    ensures SetRest(rest, name, value, found) == StepOut(rest[0], name, value, found) + SetRest(rest[1..], name, value, found || rest[0].0 == name)
  {
    RemoveAllCons(rest, name);
    if rest[0].0 == name {
      assert Has(rest, name);
    } else {
      HasTail(rest, name);
      if !found && !Has(rest, name) {
        assert rest + [(name, value)] == [rest[0]] + (rest[1..] + [(name, value)]);
      }
    }
  }

  /** `RemoveAll` on a non-empty list, one pair at a time. */
  lemma RemoveAllCons(ps: Params, name: string)
    requires ps != []
    ensures RemoveAll(ps, name) == (if ps[0].0 == name then [] else [ps[0]]) + RemoveAll(ps[1..], name)
  {
  }

  /** Past a pair with another name, the name occurs in the list exactly
      when it occurs in the rest. */
  lemma HasTail(ps: Params, name: string)
    requires ps != [] && ps[0].0 != name
    ensures Has(ps, name) <==> Has(ps[1..], name)
  {
    if Has(ps, name) {
      var i :| 0 <= i < |ps| && ps[i].0 == name;
      assert ps[1..][i - 1] == ps[i];
    }
    if Has(ps[1..], name) {
      var i :| 0 <= i < |ps[1..]| && ps[1..][i].0 == name;
      assert ps[i + 1] == ps[1..][i];
    }
  }


  // ---------------------------------------------------------------------------
  // Route parameters

  /** A value of the route's `searchParams` object. */
  datatype RouteValue = Single(s: string) | Multiple(items: seq<string>) | Undefined

  /** `Object.entries(resolvedSearchParams)`, in order; an object's keys are distinct. */
  type Route = seq<(string, RouteValue)>

  predicate DistinctKeys(route: Route) {
    forall i, j :: 0 <= i < j < |route| ==> route[i].0 != route[j].0
  }

  /** `resolvedSearchParams[key]`. */
  function Lookup(route: Route, key: string): RouteValue {
    if route == [] then Undefined
    else if route[0].0 == key then route[0].1
    else Lookup(route[1..], key)
  }

  predicate CopiesTo(v: RouteValue) {
    v.Single? && v.s != ""
  }

  /** The pairs the `forEach` leaves in the new `URLSearchParams`. */
  function Copied(route: Route): Params {
    if route == [] then []
    else
      var acc := Copied(route[..|route| - 1]);
      var e := route[|route| - 1];
      if CopiesTo(e.1) then SetParam(acc, e.0, e.1.s) else acc
  }

  /** The `forEach` that copies the non-empty string values. */
  method CopyStringParams(route: Route) returns (sp: SearchParams)
    ensures fresh(sp)
    ensures sp.entries == Copied(route)
  {
    sp := new SearchParams();
    var i := 0;
    while i < |route|
      invariant 0 <= i <= |route|
      invariant sp.entries == Copied(route[..i])
    {
      var (key, value) := route[i];
      assert route[..i + 1][..i] == route[..i];
      if value.Single? && value.s != "" {
        sp.Set(key, value.s);
      }
      i := i + 1;
    }
    assert route[..|route|] == route;
  }

  /** Exactly the non-empty string values are copied, under their own keys. */
  lemma {:induction false} CopiedGet(route: Route, key: string)
    requires DistinctKeys(route)
    ensures Get(Copied(route), key) == if CopiesTo(Lookup(route, key)) then Some(Lookup(route, key).s) else None
    decreases |route|
  {
    if route != [] {
      var init := route[..|route| - 1];
      var e := route[|route| - 1];
      assert DistinctKeys(init);
      CopiedGet(init, key);
      LookupSnoc(route, key);
      if CopiesTo(e.1) {
        if e.0 == key {
          GetAfterSet(Copied(init), key, e.1.s);
        } else {
          GetOtherAfterSet(Copied(init), e.0, e.1.s, key);
        }
      }
    }
  }

  /** Looking a key up in a route with distinct keys, from its last entry. */
  lemma {:induction false} LookupSnoc(route: Route, key: string)
    requires route != [] && DistinctKeys(route)
    ensures var init := route[..|route| - 1];
      var e := route[|route| - 1];
      Lookup(route, key) == if e.0 == key then e.1 else Lookup(init, key)
    ensures route[|route| - 1].0 == key ==> Lookup(route[..|route| - 1], key) == Undefined
    decreases |route|
  {
    var init := route[..|route| - 1];
    if |route| > 1 {
      assert route[1..][..|route| - 2] == init[1..];
      assert DistinctKeys(route[1..]);
      LookupSnoc(route[1..], key);
    }
  }

  // ---------------------------------------------------------------------------
  // getProdutos

  /** `if (searchParams.get(name)) params.set(name, searchParams.get(name)!)`. */
  function ForwardIfSet(acc: Params, ps: Params, name: string): Params {
    if Truthy(Get(ps, name)) then SetParam(acc, name, Get(ps, name).value) else acc
  }

  /** The parameters `getProdutos` sends. */
  function Forwarded(ps: Params): Params {
    var a := ForwardIfSet([], ps, "categoria");
    var b := ForwardIfSet(a, ps, "subcategoria");
    var c := ForwardIfSet(b, ps, "promocao");
    SetParam(c, "limit", "50")
  }

  /** `getProdutos`'s construction of `params`. */
  method ForwardParams(sp: SearchParams) returns (params: SearchParams)
    ensures fresh(params)
    ensures params.entries == Forwarded(sp.entries)
  {
    params := new SearchParams();
    var categoria := sp.GetParam("categoria");
    if Truthy(categoria) {
      params.Set("categoria", categoria.value);
    }
    var subcategoria := sp.GetParam("subcategoria");
    if Truthy(subcategoria) {
      params.Set("subcategoria", subcategoria.value);
    }
    var promocao := sp.GetParam("promocao");
    if Truthy(promocao) {
      params.Set("promocao", promocao.value);
    }
    params.Set("limit", "50");
  }

  predicate Whitelisted(name: string) {
    name == "categoria" || name == "subcategoria" || name == "promocao"
  }

  /** Only the three filters are forwarded, each only when set, and the
      limit is always 50. */
  lemma ForwardedGet(ps: Params, name: string)
    ensures Get(Forwarded(ps), "limit") == Some("50")
    ensures Whitelisted(name) ==> Get(Forwarded(ps), name) == if Truthy(Get(ps, name)) then Get(ps, name) else None
    ensures !Whitelisted(name) && name != "limit" ==> Get(Forwarded(ps), name).None?
  {
    var a := ForwardIfSet([], ps, "categoria");
    var b := ForwardIfSet(a, ps, "subcategoria");
    var c := ForwardIfSet(b, ps, "promocao");
    GetAfterSet(c, "limit", "50");
    if name != "limit" {
      GetOtherAfterSet(c, "limit", "50", name);
      ForwardStep(b, ps, "promocao", name);
      ForwardStep(a, ps, "subcategoria", name);
      ForwardStep([], ps, "categoria", name);
    }
  }

  lemma ForwardStep(acc: Params, ps: Params, field: string, name: string)
    ensures name == field ==> Get(ForwardIfSet(acc, ps, field), name) == if Truthy(Get(ps, name)) then Get(ps, name) else Get(acc, name)
    ensures name != field ==> Get(ForwardIfSet(acc, ps, field), name) == Get(acc, name)
  {
    if Truthy(Get(ps, field)) {
      if name == field {
        GetAfterSet(acc, field, Get(ps, field).value);
      } else {
        GetOtherAfterSet(acc, field, Get(ps, field).value, name);
      }
    }
  }

  // ---------------------------------------------------------------------------
  // The page

  /** `getCategoria`: `data.categoria || null`, null on a response that is
      not OK or an exception. */
  function CategoryOrNull(answer: Fetched<Option<CategoryRef>>): (c: Option<CategoryRef>)
    ensures c.Some? <==> answer.Body? && answer.value.Some?
    ensures c.Some? ==> c == answer.value
  {
    if answer.Body? then answer.value else None
  }

  /** `if (categoriaId)`: a non-empty string, or an array (always truthy). */
  predicate CategoryRequested(route: Route) {
    var v := Lookup(route, "categoria");
    (v.Single? && v.s != "") || v.Multiple?
  }

  /** `resolvedSearchParams.promocao === "true"`. */
  predicate IsPromocao(route: Route) {
    Lookup(route, "promocao") == Single("true")
  }

  const PromotionsTitle: string := "Produtos em Promoção"
  const AllProductsTitle: string := "Todos os Produtos"
  const CategoryTitlePrefix: string := "Produtos de "

  function Heading(categoria: Option<CategoryRef>, isPromocao: bool): string {
    if categoria.Some? then CategoryTitlePrefix + categoria.value.nome
    else if isPromocao then PromotionsTitle
    else AllProductsTitle
  }

  /** The heading tells the three cases apart, and names the category. */
  lemma HeadingCases(categoria: Option<CategoryRef>, isPromocao: bool)
    ensures var h := Heading(categoria, isPromocao);
      && (CategoryTitlePrefix <= h <==> categoria.Some?)
      && (categoria.Some? ==> h[|CategoryTitlePrefix|..] == categoria.value.nome)
      && (h == PromotionsTitle <==> categoria.None? && isPromocao)
      && (h == AllProductsTitle <==> categoria.None? && !isPromocao)
  {
    assert PromotionsTitle[9] != CategoryTitlePrefix[9];
    assert AllProductsTitle[0] != CategoryTitlePrefix[0];
    assert PromotionsTitle[0] != AllProductsTitle[0];
  }

  /** `{n} produto{s} encontrado{s}`. */
  function CountLine(n: nat): string {
    NatToString(n) + " produto" + Plural(n) + " encontrado" + Plural(n)
  }

  /** The count line starts with the number itself. */
  lemma CountLineNumber(n: nat)
    ensures ParseInt(CountLine(n)) == Some(n)
  {
    var ds := NatToString(n);
    var rest := " produto" + Plural(n) + " encontrado" + Plural(n);
    assert CountLine(n) == ds + rest;
    ParseIntOfDigitsThenText(ds, rest);
    DigitsValueOfNatToString(n);
  }

  /** One product is counted in the singular, every other count in the plural. */
  lemma CountLineWords(n: nat)
    ensures n == 1 ==> CountLine(n) == "1 produto encontrado"
    ensures n != 1 ==> CountLine(n) == NatToString(n) + " produtos encontrados"
  {
    if n == 1 {
      assert NatToString(1) == "1";
    }
  }

  lemma ParseIntOfDigitsThenText(ds: string, rest: string)
    requires |ds| >= 1 && AllDigits(ds)
    requires rest == [] || !IsDigit(rest[0])
    ensures ParseInt(ds + rest) == Some(DigitsValue(ds))
  {
    var s := ds + rest;
    StartsWithDigit(ds, rest);
    LeadingDigitsOfDigits(ds, rest);
    ParseIntOfUnsigned(s);
  }

  lemma StartsWithDigit(ds: string, rest: string)
    requires |ds| >= 1 && AllDigits(ds)
    ensures |ds + rest| >= 1 && IsDigit((ds + rest)[0])
  {
    assert (ds + rest)[0] == ds[0];
  }

  class ProdutosPage {
    var produtos: seq<Product>
    var categoria: Option<CategoryRef>
    var loading: bool
    var isPopupOpen: bool

    constructor()
      ensures produtos == [] && categoria.None? && loading && !isPopupOpen
    {
      produtos := [];
      categoria := None;
      loading := true;
      isPopupOpen := false;
    }

    /** `fetchData`: the parameters sent for the products, the products
        answer, and the category answer (asked for only when a category is
        requested). */
    method FetchData(route: Route, productsAnswer: Fetched<Option<seq<Product>>>, categoryAnswer: Fetched<Option<CategoryRef>>)
      returns (sent: Params)
      modifies this
      ensures sent == Forwarded(Copied(route))
      ensures produtos == ListOrEmpty(productsAnswer)
      ensures categoria == if CategoryRequested(route) then CategoryOrNull(categoryAnswer) else old(categoria)
      ensures !loading && isPopupOpen == old(isPopupOpen)
    {
      var sp := CopyStringParams(route);
      var params := ForwardParams(sp);
      sent := params.entries;
      produtos := ListOrEmpty(productsAnswer);
      if CategoryRequested(route) {
        categoria := CategoryOrNull(categoryAnswer);
      }
      loading := false;
    }
  }
}
