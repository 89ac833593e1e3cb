/**
 * The site footer: the stores, the categories, the social links with their
 * icons, and the white logo. Its data come from four requests made
 * together; the logo falls back to any logo when no white one exists.
 */
module Footer {
  import opened Text
  import opened Catalog

  // ---------------------------------------------------------------------------
  // Social icons

  /** The icons the footer draws; each stands for one SVG path of the table. */
  datatype Icon =
    | Facebook | Instagram | WhatsApp | YouTube | Twitter | X | LinkedIn
    | Telegram | TikTok | Discord | Pinterest | Threads | Snapchat

  /** The table key of each icon. */
  function IconKey(i: Icon): (key: string)
    ensures forall k :: 0 <= k < |key| ==> 'a' <= key[k] <= 'z'
  {
    match i
    case Facebook => "facebook"
    case Instagram => "instagram"
    case WhatsApp => "whatsapp"
    case YouTube => "youtube"
    case Twitter => "twitter"
    case X => "x"
    case LinkedIn => "linkedin"
    case Telegram => "telegram"
    case TikTok => "tiktok"
    case Discord => "discord"
    case Pinterest => "pinterest"
    case Threads => "threads"
    case Snapchat => "snapchat"
  }

  /** `icons[key]`: the icon stored under exactly that key, if any. */
  function IconTable(key: string): (r: Option<Icon>)
    ensures r.Some? ==> IconKey(r.value) == key
    ensures forall i :: IconKey(i) == key ==> r == Some(i)
  {
    if key == "facebook" then Some(Facebook)
    else if key == "instagram" then Some(Instagram)
    else if key == "whatsapp" then Some(WhatsApp)
    else if key == "youtube" then Some(YouTube)
    else if key == "twitter" then Some(Twitter)
    else if key == "x" then Some(X)
    else if key == "linkedin" then Some(LinkedIn)
    else if key == "telegram" then Some(Telegram)
    else if key == "tiktok" then Some(TikTok)
    else if key == "discord" then Some(Discord)
    else if key == "pinterest" then Some(Pinterest)
    else if key == "threads" then Some(Threads)
    else if key == "snapchat" then Some(Snapchat)
    else None
  }

  /** `getIconeSVG(icone)`: the icon of the lower-cased name, Facebook's for
      a name the table does not know. Every path in the table is non-empty,
      so the `||` fallback fires only for a missing key. */
  function IconFor(icone: string): (r: Icon)
    ensures IconTable(ToLower(icone)).Some? ==> IconKey(r) == ToLower(icone)
    ensures IconTable(ToLower(icone)).None? ==> r == Facebook
    ensures forall i :: IconKey(i) == ToLower(icone) ==> r == i
  {
    var found := IconTable(ToLower(icone));
    if found.Some? then found.value else Facebook
  }

  /** Lower-casing twice is lower-casing once. */
  lemma ToLowerIdempotent(s: string)
    ensures ToLower(ToLower(s)) == ToLower(s)
  {
    assert forall i :: 0 <= i < |s| ==> LowerChar(LowerChar(s[i])) == LowerChar(s[i]);
  }

  /** The lookup ignores case: a name and its lower-cased form draw the same icon. */
  lemma IconIgnoresCase(icone: string)
    ensures IconFor(ToLower(icone)) == IconFor(icone)
  {
    ToLowerIdempotent(icone);
  }

  /** A string with no upper-case ASCII letter is its own lower case. */
  lemma LowerUnchanged(s: string)
    requires forall k :: 0 <= k < |s| ==> !('A' <= s[k] <= 'Z')
    ensures ToLower(s) == s
  {
  }

  /** The table's own keys draw their own icons. */
  lemma KeysDrawTheirIcons(i: Icon)
    ensures IconFor(IconKey(i)) == i
  {
    LowerUnchanged(IconKey(i));
  }

  // ---------------------------------------------------------------------------
  // Logo selection

  /** The logo `fetchDados` sets: the first white logo, else (after the
      fallback request) the first of any logo, else none. `fallback` is None
      when the fallback request threw. */
  function ChooseLogo(white: Option<seq<Logo>>, fallback: Option<Option<seq<Logo>>>): (r: Option<Logo>)
    ensures white.Some? && |white.value| > 0 ==> r == Some(white.value[0])
    ensures !(white.Some? && |white.value| > 0) && fallback.Some? && fallback.value.Some? && |fallback.value.value| > 0
      ==> r == Some(fallback.value.value[0])
    ensures r.None? <==>
      !(white.Some? && |white.value| > 0) && !(fallback.Some? && fallback.value.Some? && |fallback.value.value| > 0)
  {
    if white.Some? && |white.value| > 0 then Some(white.value[0])
    else if fallback.Some? && fallback.value.Some? && |fallback.value.value| > 0 then Some(fallback.value.value[0])
    else None
  }

  // ---------------------------------------------------------------------------
  // The component's state

  /** A store as the footer reads it. */
  datatype FooterStore = FooterStore(
    id: int,
    nome: string,
    endereco: string,
    horarioFuncionamento: string,
    telefones: Option<seq<string>>)

  /** The JSON bodies of the four requests: the `lojas`, `categorias`,
      `redesSociais` and `logos` keys (None where a key is missing). */
  datatype Bodies = Bodies(
    lojas: Option<seq<FooterStore>>,
    categorias: Option<seq<Category>>,
    redesSociais: Option<seq<SocialLink>>,
    logos: Option<seq<Logo>>)

  /** `if (data.key) setKey(data.key)` for a list key: a present list (even an empty
      one, which is truthy) replaces the current list. */
  function Replace<T>(key: Option<seq<T>>, current: seq<T>): (r: seq<T>)
    ensures key.Some? ==> r == key.value
    ensures key.None? ==> r == current
  {
    if key.Some? then key.value else current
  }

  class FooterState {
    var lojas: seq<FooterStore>
    var categorias: seq<Category>
    var redesSociais: seq<SocialLink>
    var logo: Option<Logo>
    var loading: bool

    /** Nothing loaded and the "Carregando..." placeholder shown. */
    constructor ()
      ensures lojas == [] && categorias == [] && redesSociais == [] && logo.None? && loading
    {
      lojas := [];
      categorias := [];
      redesSociais := [];
      logo := None;
      loading := true;
    }

    /** `fetchDados`. `bodies` is None when one of the four requests or
        JSON parses threw; `fallback` answers the request for any logo,
        which is made (`askedFallback`) only when there is no white logo. */
    method FetchData(bodies: Option<Bodies>, fallback: Option<Option<seq<Logo>>>) returns (askedFallback: bool)
      modifies this
      ensures askedFallback <==> bodies.Some? && !(bodies.value.logos.Some? && |bodies.value.logos.value| > 0)
      ensures bodies.None? ==>
        lojas == old(lojas) && categorias == old(categorias) && redesSociais == old(redesSociais) && logo == old(logo)
      ensures bodies.Some? ==>
        && lojas == Replace(bodies.value.lojas, old(lojas))
        && categorias == Replace(bodies.value.categorias, old(categorias))
        && redesSociais == Replace(bodies.value.redesSociais, old(redesSociais))
      ensures bodies.Some? && ChooseLogo(bodies.value.logos, fallback).Some? ==>
        logo == ChooseLogo(bodies.value.logos, fallback)
      ensures bodies.Some? && ChooseLogo(bodies.value.logos, fallback).None? ==> logo == old(logo)
      ensures !loading
    {
      loading := true;
      askedFallback := false;
      if bodies.Some? {
        var b := bodies.value;
        if b.lojas.Some? {
          lojas := b.lojas.value;
        }
        if b.categorias.Some? {
          categorias := b.categorias.value;
        }
        if b.redesSociais.Some? {
          redesSociais := b.redesSociais.value;
        }
        if b.logos.Some? && |b.logos.value| > 0 {
          logo := Some(b.logos.value[0]);
        } else {
          askedFallback := true;
          if fallback.Some? && fallback.value.Some? && |fallback.value.value| > 0 {
            logo := Some(fallback.value.value[0]);
          }
        }
      }
      loading := false;
    }
  }
}
