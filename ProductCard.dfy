/**
 * The per-card helpers that every product listing repeats: the image URL
 * resolver `construirUrlImagem` (one definition, parameterised by the two
 * ways its copies differ), the name abbreviation `abreviarNomeProduto`, and
 * the discount badge guard.
 */
module ProductCard {
  import opened Text
  import opened Seqs
  import opened Catalog
  import opened Arith

  // ---------------------------------------------------------------------------
  // Image URL resolver

  /** How a copy of the resolver recognises a URL that is already absolute. */
  datatype AbsoluteTest =
    | SchemePrefix  // starts with "http://" or "https://" (the carousels for paint and offers)
    | HttpPrefix    // starts with "http" (the electrical carousel and the listing pages)

  /** One copy of the resolver: its absolute-URL test and the image it falls
      back to. The carousels fall back to a generated SVG data URL, which the
      model keeps as an uninterpreted string; the pages use `JpgPlaceholder`. */
  datatype Resolver = Resolver(test: AbsoluteTest, placeholder: string)

  const StoragePath: string := "/storage/v1/object/public/produtos/"
  const JpgPlaceholder: string := "/placeholder-product.jpg"

  predicate IsAbsolute(test: AbsoluteTest, path: string) {
    match test
    case SchemePrefix => StartsWith(path, "http://") || StartsWith(path, "https://")
    case HttpPrefix => StartsWith(path, "http")
  }

  /** Drops exactly one leading "/" (`slice(1)` / `substring(1)` under a
      `startsWith("/")` test). */
  function StripLeadingSlash(path: string): (p: string)
    ensures StartsWith(path, "/") ==> path == "/" + p
    ensures !StartsWith(path, "/") ==> p == path
  {
    if StartsWith(path, "/") then path[1..] else path
  }

  /** `construirUrlImagem(caminhoImagem)` with `NEXT_PUBLIC_SUPABASE_URL`
      passed in as `baseUrl` (an unset variable is None). */
  function ResolveImage(r: Resolver, path: Option<string>, baseUrl: Option<string>): string {
    if !Truthy(path) then r.placeholder
    else if IsAbsolute(r.test, path.value) then path.value
    else if !Truthy(baseUrl) then r.placeholder
    else baseUrl.value + StoragePath + StripLeadingSlash(path.value)
  }

  /** The object path a storage URL under `baseUrl` points at, if it is one. */
  function StoredObject(url: string, baseUrl: string): (obj: Option<string>)
    ensures obj.Some? ==> url == baseUrl + StoragePath + obj.value
  {
    var prefix := baseUrl + StoragePath;
    if StartsWith(url, prefix) then
      assert url == prefix + url[|prefix|..];
      Some(url[|prefix|..])
    else None
  }

  /** A missing or empty path, and a relative path without a configured
      storage URL, give the placeholder; an absolute URL passes through. */
  lemma ResolveFallbacks(r: Resolver, path: Option<string>, baseUrl: Option<string>)
    ensures !Truthy(path) ==> ResolveImage(r, path, baseUrl) == r.placeholder
    ensures Truthy(path) && IsAbsolute(r.test, path.value) ==> ResolveImage(r, path, baseUrl) == path.value
    ensures Truthy(path) && !IsAbsolute(r.test, path.value) && !Truthy(baseUrl) ==>
              ResolveImage(r, path, baseUrl) == r.placeholder
  {
  }

  /** A relative path resolves to a storage URL whose object is the path
      without its one leading "/": the stored object can be read back. */
  lemma ResolveRelativeRoundTrip(r: Resolver, path: string, baseUrl: string)
    requires path != [] && !IsAbsolute(r.test, path) && baseUrl != []
    ensures StoredObject(ResolveImage(r, Some(path), Some(baseUrl)), baseUrl) == Some(StripLeadingSlash(path))
  {
    var prefix := baseUrl + StoragePath;
    var url := ResolveImage(r, Some(path), Some(baseUrl));
    assert url == prefix + StripLeadingSlash(path);
    assert StartsWith(url, prefix);
    assert url[|prefix|..] == StripLeadingSlash(path);
  }

  /** Resolving an already resolved storage URL changes nothing, provided the
      storage URL itself counts as absolute for this copy of the resolver. */
  lemma ResolveIdempotent(r: Resolver, path: string, baseUrl: string)
    requires path != [] && baseUrl != [] && IsAbsolute(r.test, baseUrl)
    ensures var url := ResolveImage(r, Some(path), Some(baseUrl));
            ResolveImage(r, Some(url), Some(baseUrl)) == url
  {
    var url := ResolveImage(r, Some(path), Some(baseUrl));
    if !IsAbsolute(r.test, path) {
      var rest := StoragePath + StripLeadingSlash(path);
      assert url == baseUrl + rest;
      if r.test.SchemePrefix? {
        if StartsWith(baseUrl, "http://") {
          assert url[..7] == baseUrl[..7];
        } else {
          assert url[..8] == baseUrl[..8];
        }
      } else {
        assert url[..4] == baseUrl[..4];
      }
    }
  }

  /** Every path the strict test accepts, the loose test accepts too. */
  lemma SchemePrefixIsStricter(path: string)
    ensures IsAbsolute(SchemePrefix, path) ==> IsAbsolute(HttpPrefix, path)
  {
    if StartsWith(path, "http://") {
      assert path[..4] == "http://"[..4];
    } else if StartsWith(path, "https://") {
      assert path[..4] == "https://"[..4];
    }
  }

  /** The two copies disagree on a relative object name that happens to begin
      with "http": the loose copy returns it unchanged, the strict copy builds
      a storage URL for it. */
  lemma ResolverVariantsDisagree(placeholder: string, baseUrl: string)
    requires baseUrl != []
    ensures var path := "http-banner.png";
            ResolveImage(Resolver(HttpPrefix, placeholder), Some(path), Some(baseUrl)) == path &&
            ResolveImage(Resolver(SchemePrefix, placeholder), Some(path), Some(baseUrl))
              == baseUrl + StoragePath + path
  {
    var path := "http-banner.png";
    assert path[..4] == "http";
    assert !StartsWith(path, "http://") by { assert path[4] != "http://"[4]; }
    assert !StartsWith(path, "https://") by { assert path[4] != "https://"[4]; }
    assert !StartsWith(path, "/") by { assert path[0] != '/'; }
  }

  // ---------------------------------------------------------------------------
  // Name abbreviation

  /** `abreviarNomeProduto`: the first four pieces of `nome.split(" ")`,
      joined by single spaces. */
  function Abbreviate(nome: string): string {
    Join(Take(Split(nome, ' '), 4), " ")
  }

  /** A name of at most four space-separated pieces comes back unchanged. */
  lemma AbbreviateShortName(nome: string)
    requires |Split(nome, ' ')| <= 4
    ensures Abbreviate(nome) == nome
  {
    JoinSplit(nome, ' ');
    assert Take(Split(nome, ' '), 4) == Split(nome, ' ');
  }

  /** The abbreviation is a prefix of the name. */
  lemma AbbreviateIsPrefix(nome: string)
    ensures Abbreviate(nome) <= nome
  {
    var pieces := Split(nome, ' ');
    JoinSplit(nome, ' ');
    if |pieces| > 4 {
      JoinPrefix(pieces, 4, " ");
    } else {
      assert Take(pieces, 4) == pieces;
    }
  }

  /** The abbreviation consists of exactly the first `min(4, n)` pieces. */
  lemma AbbreviateWords(nome: string)
    ensures Split(Abbreviate(nome), ' ') == Take(Split(nome, ' '), 4)
  {
    var pieces := Take(Split(nome, ' '), 4);
    assert forall i :: 0 <= i < |pieces| ==> pieces[i] == Split(nome, ' ')[i];
    SplitJoin(pieces, ' ');
  }

  /** Abbreviating twice is abbreviating once. */
  lemma AbbreviateIdempotent(nome: string)
    ensures Abbreviate(Abbreviate(nome)) == Abbreviate(nome)
  {
    AbbreviateWords(nome);
    AbbreviateShortName(Abbreviate(nome));
  }

  // ---------------------------------------------------------------------------
  // Discount badge

  /** A sale price is truthy when it is present and not zero. */
  predicate PromoPriceTruthy(sale: Option<int>) {
    sale.Some? && sale.value != 0
  }

  /** `Math.round((list - sale) / list * 100)` on integer cents: the nearest
      integer, ties rounded up. The quotient is taken over a positive
      denominator, so a negative list price rounds the same way. A list price
      of zero gives 0. */
  function RoundedPercent(list: int, sale: int): (pct: int)
    ensures list > 0 ==> -list < 2 * pct * list - 200 * (list - sale) <= list
    ensures list < 0 ==> list <= 2 * pct * list - 200 * (list - sale) < -list
    ensures list == 0 ==> pct == 0
  {
    if list == 0 then 0
    else if list > 0 then
      var pct := (200 * (list - sale) + list) / (2 * list);
      RoundingBounds(200 * (list - sale) + list, 2 * list, pct);
      pct
    else
      var pct := (200 * (sale - list) - list) / (-2 * list);
      RoundingBounds(200 * (sale - list) - list, -2 * list, pct);
      pct
  }

  lemma RoundingBounds(n: int, d: int, q: int)
    requires d > 0 && q == n / d
    ensures q * d <= n < q * d + d
  {
  }

  /** The percentage shown on a card (`desconto`): 0 unless the product is on
      this month's promotion with a truthy sale price. */
  function Discount(p: Product): int {
    if p.promocaoMes && PromoPriceTruthy(p.precoPromocao) then RoundedPercent(p.preco, p.precoPromocao.value)
    else 0
  }

  /** The badge (`desconto > 0`) shows exactly for a promoted product whose
      sale price moves at least half a percent of the list price in the
      direction that makes the percentage positive: below a positive list
      price, or above a negative one. */
  lemma DiscountBadgeIff(p: Product)
    ensures Discount(p) > 0 <==>
      p.promocaoMes && PromoPriceTruthy(p.precoPromocao)
      && ((p.preco > 0 && 200 * (p.preco - p.precoPromocao.value) >= p.preco)
       || (p.preco < 0 && 200 * (p.preco - p.precoPromocao.value) <= p.preco))
  {
    if p.promocaoMes && PromoPriceTruthy(p.precoPromocao) && p.preco != 0 {
      var l, s := p.preco, p.precoPromocao.value;
      var pct := Discount(p);
      if l > 0 {
        if pct > 0 {
          assert 2 * pct * l >= 2 * l by { MulMonotone(pct, 1, 2 * l); }
        } else {
          assert 2 * pct * l <= 0 by { MulMonotone(0, pct, 2 * l); }
        }
      } else {
        if pct > 0 {
          assert 2 * pct * -l >= 2 * -l by { MulMonotone(pct, 1, -2 * l); }
        } else {
          assert 2 * pct * -l <= 0 by { MulMonotone(0, pct, -2 * l); }
        }
      }
    }
  }

  /** A negative list price below the sale price draws a badge above 100%:
      list -10 and sale 5 show 150. */
  lemma NegativeListPriceBadge()
    ensures RoundedPercent(-10, 5) == 150
  {
  }

  /** A sale price between 0 and the list price gives a percentage in [0, 100]. */
  lemma DiscountInRange(p: Product)
    requires p.promocaoMes && p.precoPromocao.Some?
    requires 0 < p.precoPromocao.value <= p.preco
    ensures 0 <= Discount(p) <= 100
  {
    var l, pct := p.preco, Discount(p);
    assert -l < 2 * pct * l - 200 * (l - p.precoPromocao.value) <= l;
    assert 2 * pct * l == pct * (2 * l);
    PercentTimesPrice(pct, 2 * l);
  }

  lemma PercentTimesPrice(pct: int, c: int)
    requires c > 0
    ensures pct <= -1 ==> pct * c <= -c
    ensures pct >= 101 ==> pct * c >= 101 * c
  {
    if pct <= -1 {
      MulMonotone(-1, pct, c);
    }
    if pct >= 101 {
      MulMonotone(pct, 101, c);
    }
  }
}
