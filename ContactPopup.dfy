/**
 * The store-and-salesperson popup: a list of stores, then the salespeople
 * of the chosen store, then a chat link opened in a new window. The popup
 * component stays mounted while closed (it renders nothing), so its state
 * lives on between openings; the parent's `isOpen` prop is a field here,
 * set by `Open` and cleared by the popup's `onClose` calls.
 */
module ContactPopup {
  import opened Text
  import opened Seqs
  import opened Catalog
  import opened UriComponent

  datatype View = StoresView | SalespeopleView

  const ProductMessagePrefix: string := "Olá! Gostaria de mais informações sobre o produto: "
  const GenericMessage: string := "Olá! Gostaria de mais informações sobre os produtos da TurattiMT."
  const ChatPrefix: string := "https://wa.me/55"

  // ---------------------------------------------------------------------------
  // Message, link and phone display

  /** The prefilled message: about the product when a name is given. */
  function Message(produtoNome: Option<string>): (m: string)
    ensures Truthy(produtoNome) ==> ProductMessagePrefix <= m && m[|ProductMessagePrefix|..] == produtoNome.value
    ensures !Truthy(produtoNome) ==> m == GenericMessage
  {
    if Truthy(produtoNome) then ProductMessagePrefix + produtoNome.value else GenericMessage
  }

  /** Different product names give different messages, and a message tells
      whether a product was named. */
  lemma MessageInjective(a: Option<string>, b: Option<string>)
    requires Message(a) == Message(b)
    ensures Truthy(a) <==> Truthy(b)
    ensures Truthy(a) ==> a.value == b.value
  {
    GenericIsNotAboutAProduct();
    if Truthy(a) && Truthy(b) {
      assert a.value == Message(a)[|ProductMessagePrefix|..];
    }
  }

  lemma GenericIsNotAboutAProduct()
    ensures !(ProductMessagePrefix <= GenericMessage)
  {
    assert ProductMessagePrefix[41] != GenericMessage[41];
  }

  /** `https://wa.me/55${whatsapp}?text=${encodeURIComponent(message)}`. */
  function ChatLink(whatsapp: string, message: string): string {
    ChatPrefix + whatsapp + "?text=" + Encode(message)
  }

  /** For a number without `?`, the link's query begins at the first `?`,
      holds one `text` parameter with no `?`, `&` or `#` of its own, and that
      parameter decodes back to the message's bytes. */
  lemma ChatLinkParts(whatsapp: string, message: string)
    requires '?' !in whatsapp
    ensures var link := ChatLink(whatsapp, message);
      var k := |ChatPrefix| + |whatsapp|;
      && link[..k] == ChatPrefix + whatsapp
      && '?' !in link[..k]
      && link[k..k + 6] == "?text="
      && '?' !in link[k + 6..] && '&' !in link[k + 6..] && '#' !in link[k + 6..]
      && DecodeBytes(link[k + 6..]) == Some(Utf8String(message))
  {
    var pre := ChatPrefix + whatsapp;
    var text := Encode(message);
    QuerySplit(pre, text);
    assert ChatLink(whatsapp, message) == pre + "?text=" + text;
    NoQuestionMarkInLinkHead(whatsapp);
    EncodedIsSafe(Utf8String(message));
    SafeTextHasNoDelimiter(text);
    DecodeEncodeBytes(Utf8String(message));
  }

  lemma QuerySplit(pre: string, text: string)
    ensures var link := pre + "?text=" + text;
      link[..|pre|] == pre && link[|pre|..|pre| + 6] == "?text=" && link[|pre| + 6..] == text
  {
  }

  lemma NoQuestionMarkInLinkHead(whatsapp: string)
    requires '?' !in whatsapp
    ensures '?' !in ChatPrefix + whatsapp
  {
    assert forall i :: 0 <= i < |ChatPrefix| ==> ChatPrefix[i] != '?';
  }

  lemma SafeTextHasNoDelimiter(t: string)
    requires forall i :: 0 <= i < |t| ==> Unreserved(t[i]) || t[i] == '%' || IsHexUpper(t[i])
    ensures '?' !in t && '&' !in t && '#' !in t
  {
  }

  /** `(${w.slice(0, 2)}) ${w.slice(2, 7)}-${w.slice(7)}`. */
  function PhoneDisplay(w: string): (d: string)
    ensures |w| >= 7 ==> |d| == |w| + 4
  {
    "(" + Slice(w, 0, 2) + ") " + Slice(w, 2, 7) + "-" + SliceFrom(w, 7)
  }

  /** The digits of the display are the number itself. */
  lemma PhoneDisplayDigits(w: string)
    requires |w| >= 7 && AllDigits(w)
    ensures Filter(PhoneDisplay(w), IsDigit) == w
  {
    var a, b, c := w[..2], w[2..7], w[7..];
    SplitThree(w, 2, 7);
    PhoneDisplayShape(w);
    AllDigitsKept(a, b, c);
    SeparatorsHaveNoDigits();
    DigitsAmongSeparators("(", a, ") ", b, "-", c);
  }

  lemma SplitThree(w: string, i: nat, j: nat)
    requires i <= j <= |w|
    ensures w == w[..i] + w[i..j] + w[j..]
  {
  }

  lemma PhoneDisplayShape(w: string)
    requires |w| >= 7
    ensures PhoneDisplay(w) == "(" + w[..2] + ") " + w[2..7] + "-" + w[7..]
  {
  }

  lemma AllDigitsKept(a: string, b: string, c: string)
    requires AllDigits(a + b + c)
    ensures Filter(a, IsDigit) + Filter(b, IsDigit) + Filter(c, IsDigit) == a + b + c
  {
    var w := a + b + c;
    assert forall i :: 0 <= i < |a| ==> a[i] == w[i];
    assert forall i :: 0 <= i < |b| ==> b[i] == w[|a| + i];
    assert forall i :: 0 <= i < |c| ==> c[i] == w[|a| + |b| + i];
    FilterAll(a, IsDigit);
    FilterAll(b, IsDigit);
    FilterAll(c, IsDigit);
  }

  lemma SeparatorsHaveNoDigits()
    ensures Filter("(", IsDigit) == [] && Filter(") ", IsDigit) == [] && Filter("-", IsDigit) == []
  {
    NoDigits("(");
    NoDigits(") ");
    NoDigits("-");
  }

  /** Only the digit groups survive a digit filter over text that separates
      them by non-digits. */
  lemma DigitsAmongSeparators(p: string, a: string, q: string, b: string, r: string, c: string)
    requires Filter(p, IsDigit) == [] && Filter(q, IsDigit) == [] && Filter(r, IsDigit) == []
    ensures Filter(p + a + q + b + r + c, IsDigit) == Filter(a, IsDigit) + Filter(b, IsDigit) + Filter(c, IsDigit)
  {
    var x := p + a + q;
    var y := x + b + r;
    FilterBetween(p, a, q);
    assert Filter(x, IsDigit) == Filter(a, IsDigit);
    FilterBetween(x, b, r);
    assert Filter(y, IsDigit) == Filter(a, IsDigit) + Filter(b, IsDigit);
    FilterConcat(y, c, IsDigit);
    assert p + a + q + b + r + c == y + c;
  }

  lemma NoDigits(p: string)
    requires forall i :: 0 <= i < |p| ==> !IsDigit(p[i])
    ensures Filter(p, IsDigit) == []
  {
    if p != [] {
      NoDigits(p[1..]);
    }
  }

  lemma FilterBetween(x: string, y: string, z: string)
    ensures Filter(x + y + z, IsDigit) == Filter(x, IsDigit) + Filter(y, IsDigit) + Filter(z, IsDigit)
  {
    FilterConcat(x + y, z, IsDigit);
    FilterConcat(x, y, IsDigit);
  }

  // ---------------------------------------------------------------------------
  // Salespeople fetch

  function ExampleSalespeople(lojaId: int, n: nat): seq<Salesperson>
    requires n <= 3
  {
    [ Salesperson(1, "João Silva", "65999887766", "Consultor de Vendas", true, Some(lojaId)),
      Salesperson(2, "Maria Santos", "65998776655", "Especialista em Tintas", true, Some(lojaId)),
      Salesperson(3, "Carlos Oliveira", "65997665544", "Especialista em Materiais Elétricos", true, Some(lojaId)) ][..n]
  }

  /** The list `fetchVendedores` stores: the body's list (or `[]`), three
      examples on a response that is not OK, one on an exception. */
  function SalespeopleAfter(lojaId: int, answer: Fetched<Option<seq<Salesperson>>>): (vs: seq<Salesperson>)
    ensures answer.NotOk? ==> |vs| == 3
    ensures answer.Thrown? ==> |vs| == 1
    ensures answer.Body? ==> vs == if answer.value.Some? then answer.value.value else []
  {
    match answer
    case NotOk => ExampleSalespeople(lojaId, 3)
    case Thrown => ExampleSalespeople(lojaId, 1)
    case Body(data) => if data.Some? then data.value else []
  }

  /** The examples are active, numbered from 1, and of the selected store. */
  lemma ExamplesOfSelectedStore(lojaId: int, answer: Fetched<Option<seq<Salesperson>>>)
    requires !answer.Body?
    ensures var vs := SalespeopleAfter(lojaId, answer);
      forall i :: 0 <= i < |vs| ==> vs[i].id == i + 1 && vs[i].ativo && vs[i].lojaId == Some(lojaId)
  {
  }

  // ---------------------------------------------------------------------------
  // The component

  class Popup {
    var isOpen: bool
    var lojas: seq<Store>
    var vendedores: seq<Salesperson>
    var lojaSelecionada: Option<Store>
    var loading: bool
    var view: View
    const produtoNome: Option<string>

    /** The salespeople view is shown exactly when a store is selected. */
    predicate Valid()
      reads this
    {
      view == SalespeopleView <==> lojaSelecionada.Some?
    }

    constructor(produtoNome: Option<string>)
      ensures Valid()
      ensures !isOpen && lojas == [] && vendedores == [] && lojaSelecionada.None? && !loading && view == StoresView
      ensures this.produtoNome == produtoNome
    {
      this.produtoNome := produtoNome;
      isOpen := false;
      lojas := [];
      vendedores := [];
      lojaSelecionada := None;
      loading := false;
      view := StoresView;
    }

    /** The parent opens the popup; the effect starts loading the stores. */
    method Open()
      requires Valid() && !isOpen
      modifies this
      ensures Valid()
      ensures isOpen && loading
      ensures lojas == old(lojas) && vendedores == old(vendedores) && lojaSelecionada == old(lojaSelecionada) && view == old(view)
    {
      isOpen := true;
      loading := true;
    }

    /** `fetchLojas` completes: `data.lojas || []` on a body, no change on an
        exception; loading ends either way. */
    method StoresArrived(answer: Option<Option<seq<Store>>>)
      requires Valid()
      modifies this
      ensures Valid()
      ensures lojas == if answer.None? then old(lojas) else if answer.value.Some? then answer.value.value else []
      ensures !loading
      ensures isOpen == old(isOpen) && vendedores == old(vendedores) && lojaSelecionada == old(lojaSelecionada) && view == old(view)
    {
      if answer.Some? {
        lojas := if answer.value.Some? then answer.value.value else [];
      }
      loading := false;
    }

    /** `handleLojaClick`: select the store, show its salespeople, start
        fetching them. */
    method SelectStore(loja: Store)
      requires Valid() && isOpen && view == StoresView && !loading && loja in lojas
      modifies this
      ensures Valid()
      ensures lojaSelecionada == Some(loja) && view == SalespeopleView && loading
      ensures isOpen && lojas == old(lojas) && vendedores == old(vendedores)
    {
      lojaSelecionada := Some(loja);
      view := SalespeopleView;
      loading := true;
    }

    /** `fetchVendedores(lojaId)` completes. */
    method SalespeopleArrived(lojaId: int, answer: Fetched<Option<seq<Salesperson>>>)
      requires Valid()
      modifies this
      ensures Valid()
      ensures vendedores == SalespeopleAfter(lojaId, answer) && !loading
      ensures isOpen == old(isOpen) && lojas == old(lojas) && lojaSelecionada == old(lojaSelecionada) && view == old(view)
    {
      vendedores := SalespeopleAfter(lojaId, answer);
      loading := false;
    }

    /** `handleBack`. */
    method Back()
      requires Valid() && isOpen && view == SalespeopleView
      modifies this
      ensures Valid()
      ensures view == StoresView && lojaSelecionada.None? && vendedores == []
      ensures isOpen && lojas == old(lojas) && loading == old(loading)
    {
      view := StoresView;
      lojaSelecionada := None;
      vendedores := [];
    }

    /** `handleClose`: the same reset, then `onClose`. */
    method Close()
      requires Valid() && isOpen
      modifies this
      ensures Valid()
      ensures view == StoresView && lojaSelecionada.None? && vendedores == [] && !isOpen
      ensures lojas == old(lojas) && loading == old(loading)
    {
      view := StoresView;
      lojaSelecionada := None;
      vendedores := [];
      OnClose();
    }

    /** The parent's `onClose` callback: it clears `isOpen` and nothing else. */
    method OnClose()
      modifies this
      ensures !isOpen
      ensures view == old(view) && lojaSelecionada == old(lojaSelecionada) && vendedores == old(vendedores)
      ensures lojas == old(lojas) && loading == old(loading)
    {
      isOpen := false;
    }

    /** `handleVendedorClick` as written: the chat link is opened and
        `onClose` called, with no reset of the view or the selection. */
    method ClickSalesperson(v: Salesperson) returns (url: string)
      requires Valid() && isOpen && view == SalespeopleView && !loading && v in vendedores
      modifies this
      ensures Valid()
      ensures url == ChatLink(v.whatsapp, Message(produtoNome))
      ensures !isOpen
      ensures view == old(view) && lojaSelecionada == old(lojaSelecionada) && vendedores == old(vendedores)
      ensures lojas == old(lojas) && loading == old(loading)
    {
      url := ChatLink(v.whatsapp, Message(produtoNome));
      OnClose();
    }

    /** `handleVendedorClick` leaving the popup as `handleClose` does. */
    method ClickSalespersonAndReset(v: Salesperson) returns (url: string)
      requires Valid() && isOpen && view == SalespeopleView && !loading && v in vendedores
      modifies this
      ensures Valid()
      ensures url == ChatLink(v.whatsapp, Message(produtoNome))
      ensures view == StoresView && lojaSelecionada.None? && vendedores == [] && !isOpen
      ensures lojas == old(lojas) && loading == old(loading)
    {
      url := ChatLink(v.whatsapp, Message(produtoNome));
      Close();
    }
  }

  /** As written: after chatting with a salesperson and reopening, the popup
      still shows the salespeople of the store chosen last time. */
  method ReopenAfterChat(loja: Store, v: Salesperson, produtoNome: Option<string>) returns (view: View, selected: Option<Store>)
    ensures view == SalespeopleView && selected == Some(loja)
  {
    var p := new Popup(produtoNome);
    p.Open();
    p.StoresArrived(Some(Some([loja])));
    assert p.lojas == [loja];
    p.SelectStore(loja);
    p.SalespeopleArrived(loja.id, Body(Some([v])));
    assert p.vendedores == [v];
    var _ := p.ClickSalesperson(v);
    p.Open();
    p.StoresArrived(Some(Some([loja])));
    view, selected := p.view, p.lojaSelecionada;
  }

  /** With the reset: every reopening starts from the list of stores. */
  method ReopenAfterChatReset(loja: Store, v: Salesperson, produtoNome: Option<string>) returns (view: View, selected: Option<Store>)
    ensures view == StoresView && selected.None?
  {
    var p := new Popup(produtoNome);
    p.Open();
    p.StoresArrived(Some(Some([loja])));
    assert p.lojas == [loja];
    p.SelectStore(loja);
    p.SalespeopleArrived(loja.id, Body(Some([v])));
    assert p.vendedores == [v];
    var _ := p.ClickSalespersonAndReset(v);
    p.Open();
    p.StoresArrived(Some(Some([loja])));
    view, selected := p.view, p.lojaSelecionada;
  }
}
