/**
 * The catalog records the storefront reads from its hosted database. Only the
 * columns that the modelled logic looks at are kept. Prices are integer
 * cents; an optional column that may come back null or undefined is an
 * `Option`.
 */
module Catalog {
  import opened Text

  /** The category a subcategory row is joined with (`categorias(id, nome)`). */
  datatype CategoryRef = CategoryRef(id: int, nome: string)

  datatype Subcategory = Subcategory(
    id: int,
    nome: string,
    categoriaId: int,
    ativo: bool,
    ordem: int,
    categoria: CategoryRef)

  /** A category row; `subcategorias` is present only when the rows were
      selected together with their subcategories. */
  datatype Category = Category(
    id: int,
    nome: string,
    descricao: Option<string>,
    ativo: bool,
    ordem: int,
    subcategorias: Option<seq<Subcategory>>)

  datatype Product = Product(
    id: int,
    nome: string,
    descricao: Option<string>,
    preco: int,
    promocaoMes: bool,
    precoPromocao: Option<int>,
    imagemPrincipal: Option<string>,
    promocaoDataFim: Option<string>,
    status: string,
    subcategoriaId: int,
    novidade: bool,
    tipoTinta: bool,
    tipoEletrico: bool)

  datatype Store = Store(id: int, nome: string, endereco: string, status: string)

  /** A salesperson; `lojaId` is None where the source would hold NaN
      (`parseInt` of a non-numeric store id), which JSON renders as null. */
  datatype Salesperson = Salesperson(
    id: int,
    nome: string,
    whatsapp: string,
    cargo: string,
    ativo: bool,
    lojaId: Option<int>)

  datatype Banner = Banner(
    id: int,
    titulo: string,
    imagemUrl: string,
    linkDestino: Option<string>,
    ativo: bool,
    ordem: int)

  datatype Logo = Logo(id: string, nome: string, tipo: string, posicao: string, imagemUrl: string, ativo: bool)

  datatype SocialLink = SocialLink(id: int, nome: string, link: string, icone: string)

  /** The outcome of a `fetch` whose JSON body is read: a response that was
      not OK, a thrown exception (network failure, malformed JSON), or a body. */
  datatype Fetched<T> = NotOk | Thrown | Body(value: T)

  /** What an awaited database query gives the handler: `error` set, an
      exception thrown while awaiting it, or `data` (null is None). */
  datatype Queried<T> = QueryError | Raised | Rows(data: Option<seq<T>>)

  /** The list a page's fetch helper returns: the body's list, or `[]` when
      the key is missing, the response is not OK or anything throws. */
  function ListOrEmpty<T>(answer: Fetched<Option<seq<T>>>): (r: seq<T>)
    ensures r != [] ==> answer == Body(Some(r))
    ensures answer.Body? && answer.value.Some? ==> r == answer.value.value
  {
    if answer.Body? && answer.value.Some? then answer.value.value else []
  }
}
