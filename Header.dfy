/**
 * The site header: a search box, the mobile menu, the desktop mega menu of
 * categories and the logo. The menus list the categories that have
 * subcategories; the mobile menu shows at most eight subcategories per
 * category and a "Ver todas" link for the rest. Each subcategory links to
 * the product listing with its category and subcategory ids.
 */
module Header {
  import opened Text
  import opened Seqs
  import opened Catalog
  import opened QueryString
  import ProductsRoute

  // ---------------------------------------------------------------------------
  // The category menus

  /** `categoria.subcategorias && categoria.subcategorias.length > 0`. */
  predicate HasSubcategories(c: Category) {
    c.subcategorias.Some? && |c.subcategorias.value| > 0
  }

  /** The categories both menus list. */
  function MenuCategories(cs: seq<Category>): seq<Category> {
    Filter(cs, HasSubcategories)
  }

  /** A category is listed exactly when it is loaded and has subcategories. */
  lemma MenuCategoriesExactly(cs: seq<Category>, c: Category)
    ensures c in MenuCategories(cs) <==> c in cs && HasSubcategories(c)
  {
    if c in cs && HasSubcategories(c) {
      FilterKeeps(cs, HasSubcategories, c);
    }
    if c in MenuCategories(cs) {
      var i :| 0 <= i < |MenuCategories(cs)| && MenuCategories(cs)[i] == c;
      FilterFrom(cs, HasSubcategories, i);
    }
  }

  /** The menus keep the loaded order: the entries of a prefix come first. */
  lemma MenuCategoriesKeepOrder(a: seq<Category>, b: seq<Category>)
    ensures MenuCategories(a + b) == MenuCategories(a) + MenuCategories(b)
  {
    FilterConcat(a, b, HasSubcategories);
  }

  /** When every category has subcategories, the menus list them all. */
  lemma MenuCategoriesAll(cs: seq<Category>)
    requires forall i :: 0 <= i < |cs| ==> HasSubcategories(cs[i])
    ensures MenuCategories(cs) == cs
  {
    FilterAll(cs, HasSubcategories);
  }

  /** The mobile menu's cap on the subcategories shown per category. */
  const MobileLimit: nat := 8

  /** `categoria.subcategorias!.slice(0, 8)`. */
  function MobileSubcategories(c: Category): (shown: seq<Subcategory>)
    requires HasSubcategories(c)
    ensures |shown| <= MobileLimit && |shown| >= 1
    ensures shown <= c.subcategorias.value
    ensures |c.subcategorias.value| <= MobileLimit ==> shown == c.subcategorias.value
  {
    Take(c.subcategorias.value, MobileLimit)
  }

  /** The count in "Ver todas (n+ itens)": present only past eight. */
  function SeeAllCount(c: Category): (count: Option<nat>)
    requires HasSubcategories(c)
    ensures count.None? <==> MobileSubcategories(c) == c.subcategorias.value
    ensures count.Some? ==> count.value >= 1 && |MobileSubcategories(c)| + count.value == |c.subcategorias.value|
  {
    var n := |c.subcategorias.value|;
    if n > MobileLimit then Some(n - MobileLimit) else None
  }

  // ---------------------------------------------------------------------------
  // Links

  const ListingPath: string := "/produtos?"

  /** `/produtos?categoria=${categoria.id}&subcategoria=${subcategoria.id}`. */
  function SubcategoryLink(categoryId: int, subcategoryId: int): string {
    ListingPath + "categoria=" + IntToString(categoryId) + "&subcategoria=" + IntToString(subcategoryId)
  }

  /** `/produtos?categoria=${categoria.id}`, the "Ver todas" target. */
  function CategoryLink(categoryId: int): string {
    ListingPath + "categoria=" + IntToString(categoryId)
  }

  lemma NoDelimiterInInteger(n: int)
    ensures '&' !in IntToString(n) && '=' !in IntToString(n)
  {
    IntToStringChars(n);
  }

  /** A subcategory link's query reads back as the two ids, and the listing
      route then filters on that subcategory alone. */
  lemma SubcategoryLinkReadsBack(categoryId: int, subcategoryId: int)
    ensures SubcategoryLink(categoryId, subcategoryId)[..|ListingPath|] == ListingPath
    ensures var ps := ParseQuery(SubcategoryLink(categoryId, subcategoryId)[|ListingPath|..]);
      && Get(ps, "categoria").Some? && ParseInt(Get(ps, "categoria").value) == Some(categoryId)
      && Get(ps, "subcategoria").Some? && ParseInt(Get(ps, "subcategoria").value) == Some(subcategoryId)
      && ProductsRoute.SubcategoryFilter(ps) == [ProductsRoute.SubcategoryIs(Some(subcategoryId))]
  {
    var c := IntToString(categoryId);
    var s := IntToString(subcategoryId);
    NoDelimiterInInteger(categoryId);
    NoDelimiterInInteger(subcategoryId);
    SubcategoryQuery(c, s);
    ParseIntOfIntToString(categoryId);
    ParseIntOfIntToString(subcategoryId);
  }

  /** The query of a subcategory link, for any two values free of `&`. */
  lemma SubcategoryQuery(c: string, s: string)
    requires '&' !in c && '&' !in s
    ensures var link := ListingPath + "categoria=" + c + "&subcategoria=" + s;
      && link[..|ListingPath|] == ListingPath
      && var ps := ParseQuery(link[|ListingPath|..]);
      && Get(ps, "categoria") == Some(c) && Get(ps, "subcategoria") == Some(s)
  {
    var link := ListingPath + "categoria=" + c + "&subcategoria=" + s;
    var q := "categoria" + "=" + c + "&" + "subcategoria" + "=" + s;
    assert link == ListingPath + q;
    ParseTwoPairs("categoria", c, "subcategoria", s);
  }


  /** The "Ver todas" link's query reads back as the category id alone. */
  lemma CategoryLinkReadsBack(categoryId: int)
    ensures CategoryLink(categoryId)[..|ListingPath|] == ListingPath
    ensures var ps := ParseQuery(CategoryLink(categoryId)[|ListingPath|..]);
      && Get(ps, "categoria").Some? && ParseInt(Get(ps, "categoria").value) == Some(categoryId)
      && Get(ps, "subcategoria").None?
  {
    var c := IntToString(categoryId);
    var q := "categoria" + "=" + c;
    assert CategoryLink(categoryId) == ListingPath + q;
    NoDelimiterInInteger(categoryId);
    ParseOnePair("categoria", c);
    ParseIntOfIntToString(categoryId);
  }

  // ---------------------------------------------------------------------------
  // Search

  /** `searchQuery.trim()` is empty exactly when the query is all white space. */
  lemma BlankIff(q: string)
    ensures Trim(q) == [] <==> forall i :: 0 <= i < |q| ==> IsSpace(q[i])
  {
    var t := TrimStart(q);
    if t != [] {
      assert TrimEnd(t) != [] by {
        assert !IsSpace(t[0]);
      }
      assert !IsSpace(q[|q| - |t|]);
    }
  }

  // ---------------------------------------------------------------------------
  // The component's state

  class HeaderState {
    var searchQuery: string
    var isMobileMenuOpen: bool
    var isMegaMenuOpen: bool
    var categorias: seq<Category>
    var isScrolled: bool
    var logo: Option<Logo>

    /** The initial state: nothing typed, menus closed, no categories, no logo. */
    constructor ()
      ensures searchQuery == [] && !isMobileMenuOpen && !isMegaMenuOpen
      ensures categorias == [] && !isScrolled && logo.None?
    {
      searchQuery := [];
      isMobileMenuOpen := false;
      isMegaMenuOpen := false;
      categorias := [];
      isScrolled := false;
      logo := None;
    }

    /** The category request settled. `answer` is None when the request or
        the JSON parsing threw, else the body's `categorias` key. */
    method CategoriesArrived(answer: Option<Option<seq<Category>>>)
      modifies this
      ensures answer.None? ==> categorias == old(categorias)
      ensures answer == Some(None) ==> categorias == []
      ensures answer.Some? && answer.value.Some? ==> categorias == answer.value.value
      ensures searchQuery == old(searchQuery) && isMobileMenuOpen == old(isMobileMenuOpen)
      ensures isMegaMenuOpen == old(isMegaMenuOpen) && isScrolled == old(isScrolled) && logo == old(logo)
    {
      if answer.Some? {
        categorias := if answer.value.Some? then answer.value.value else [];
      }
    }

    /** The logo request settled; only a non-empty list sets the logo, to
        its first entry. */
    method LogoArrived(answer: Option<Option<seq<Logo>>>)
      modifies this
      ensures answer.Some? && answer.value.Some? && |answer.value.value| > 0 ==> logo == Some(answer.value.value[0])
      ensures !(answer.Some? && answer.value.Some? && |answer.value.value| > 0) ==> logo == old(logo)
      ensures searchQuery == old(searchQuery) && isMobileMenuOpen == old(isMobileMenuOpen)
      ensures isMegaMenuOpen == old(isMegaMenuOpen) && isScrolled == old(isScrolled) && categorias == old(categorias)
    {
      if answer.Some? && answer.value.Some? && |answer.value.value| > 0 {
        logo := Some(answer.value.value[0]);
      }
    }

    /** The scroll listener: the header is compact past ten pixels. */
    method Scroll(scrollY: int)
      modifies this
      ensures isScrolled <==> scrollY > 10
      ensures searchQuery == old(searchQuery) && isMobileMenuOpen == old(isMobileMenuOpen)
      ensures isMegaMenuOpen == old(isMegaMenuOpen) && categorias == old(categorias) && logo == old(logo)
    {
      isScrolled := scrollY > 10;
    }

    /** Typing in either search box. */
    method Type(text: string)
      modifies this
      ensures searchQuery == text
      ensures isMobileMenuOpen == old(isMobileMenuOpen) && isMegaMenuOpen == old(isMegaMenuOpen)
      ensures isScrolled == old(isScrolled) && categorias == old(categorias) && logo == old(logo)
    {
      searchQuery := text;
    }

    /** Submitting a search form: the query is acted on (`searched`) only
        when it holds something other than white space. */
    method Submit() returns (searched: Option<string>)
      ensures searched.Some? <==> exists i :: 0 <= i < |searchQuery| && !IsSpace(searchQuery[i])
      ensures searched.Some? ==> searched.value == searchQuery
    {
      BlankIff(searchQuery);
      searched := if Trim(searchQuery) != [] then Some(searchQuery) else None;
    }

    /** The menu button. */
    method ToggleMobileMenu()
      modifies this
      ensures isMobileMenuOpen == !old(isMobileMenuOpen)
      ensures searchQuery == old(searchQuery) && isMegaMenuOpen == old(isMegaMenuOpen)
      ensures isScrolled == old(isScrolled) && categorias == old(categorias) && logo == old(logo)
    {
      isMobileMenuOpen := !isMobileMenuOpen;
    }

    /** Any link of the mobile menu (page, subcategory or "Ver todas") closes it. */
    method FollowMobileLink()
      modifies this
      ensures !isMobileMenuOpen
      ensures searchQuery == old(searchQuery) && isMegaMenuOpen == old(isMegaMenuOpen)
      ensures isScrolled == old(isScrolled) && categorias == old(categorias) && logo == old(logo)
    {
      isMobileMenuOpen := false;
    }

    /** The mouse enters the "Todas as Categorias" button or the dropdown. */
    method EnterMegaMenu()
      modifies this
      ensures isMegaMenuOpen
      ensures searchQuery == old(searchQuery) && isMobileMenuOpen == old(isMobileMenuOpen)
      ensures isScrolled == old(isScrolled) && categorias == old(categorias) && logo == old(logo)
    {
      isMegaMenuOpen := true;
    }

    /** The mouse leaves them. */
    method LeaveMegaMenu()
      modifies this
      ensures !isMegaMenuOpen
      ensures searchQuery == old(searchQuery) && isMobileMenuOpen == old(isMobileMenuOpen)
      ensures isScrolled == old(isScrolled) && categorias == old(categorias) && logo == old(logo)
    {
      isMegaMenuOpen := false;
    }

    /** The categories the menus currently list. */
    function Menu(): (entries: seq<Category>)
      reads this
      ensures forall i :: 0 <= i < |entries| ==> HasSubcategories(entries[i])
      ensures |entries| <= |categorias|
    {
      MenuCategories(categorias)
    }
  }

  /** Toggling the mobile menu twice leaves it as it was. */
  method ToggleTwice(h: HeaderState)
    modifies h
    ensures h.isMobileMenuOpen == old(h.isMobileMenuOpen)
  {
    h.ToggleMobileMenu();
    h.ToggleMobileMenu();
  }
}
