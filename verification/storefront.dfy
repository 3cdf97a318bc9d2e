/**
 * The page script backend/static/js/scripts.js: the canteen cart kept in the
 * browser, its displayed total and checkout guards, the product category filter,
 * and the member-dashboard search that hides cards, sections and titles.
 * Prices are integer cents; DOM display states become booleans.
 */
module Storefront {
  import opened Wrappers
  import opened Text
  import opened Seqs

  // ---------------------------------------------------------------------------
  // The cart
  // ---------------------------------------------------------------------------

  /** One cart entry; `id` is the product id as the button's data attribute holds it (a string). */
  datatype CartItem = CartItem(id: string, nome: string, preco: int, quantidade: int)

  /** The ids in cart order. */
  function Ids(items: seq<CartItem>): (r: seq<string>)
    ensures |r| == |items| && forall i :: 0 <= i < |items| ==> r[i] == items[i].id
  {
    if items == [] then [] else [items[0].id] + Ids(items[1..])
  }

  /** Position of the first entry with this id (`carrinho.find`). */
  function IndexOf(items: seq<CartItem>, id: string): (r: Option<nat>)
    ensures r.None? <==> forall i :: 0 <= i < |items| ==> items[i].id != id
    ensures r.Some? ==> r.value < |items| && items[r.value].id == id
    ensures r.Some? ==> forall j :: 0 <= j < r.value ==> items[j].id != id
  {
    if items == [] then None
    else if items[0].id == id then Some(0)
    else
      var r := IndexOf(items[1..], id);
      assert forall i :: 1 <= i < |items| ==> items[i] == items[1..][i - 1];
      if r.Some? then Some(r.value + 1) else None
  }

  /** The cart after `adicionarAoCarrinho(id, nome, preco)`. */
  function Added(items: seq<CartItem>, id: string, nome: string, preco: int): seq<CartItem> {
    var i := IndexOf(items, id);
    if i.Some? then items[i.value := items[i.value].(quantidade := items[i.value].quantidade + 1)]
    else items + [CartItem(id, nome, preco, 1)]
  }

  /** Adding an id already present bumps that entry's quantity by one (keeping its name and price)
      and leaves the length and every other entry alone; a new id is appended with quantity 1. */
  lemma AddedEffect(items: seq<CartItem>, id: string, nome: string, preco: int)
    ensures var r := Added(items, id, nome, preco);
      && (IndexOf(items, id).Some? ==>
            var i := IndexOf(items, id).value;
            && |r| == |items|
            && r[i] == items[i].(quantidade := items[i].quantidade + 1)
            && forall j :: 0 <= j < |items| && j != i ==> r[j] == items[j])
      && (IndexOf(items, id).None? ==> r == items + [CartItem(id, nome, preco, 1)])
  {
  }

  /** Ids in the cart stay unique, so `find` always hits the one entry for an id. */
  lemma AddedKeepsIdsDistinct(items: seq<CartItem>, id: string, nome: string, preco: int)
    requires Distinct(Ids(items))
    ensures Distinct(Ids(Added(items, id, nome, preco)))
  {
    var r := Added(items, id, nome, preco);
    assert forall j :: 0 <= j < |items| ==> r[j].id == items[j].id;
  }

  /** Sum of price times quantity (the running `total` of the display loop). */
  function Total(items: seq<CartItem>): int {
    if items == [] then 0
    else Total(items[..|items| - 1]) + items[|items| - 1].preco * items[|items| - 1].quantidade
  }

  /** Adding raises the total by exactly the added product's unit price (the stored one, for a known id). */
  lemma {:induction false} AddedTotal(items: seq<CartItem>, id: string, nome: string, preco: int)
    ensures Total(Added(items, id, nome, preco)) ==
      Total(items) + (if IndexOf(items, id).Some? then items[IndexOf(items, id).value].preco else preco)
  {
    var i := IndexOf(items, id);
    if i.Some? {
      TotalBump(items, i.value);
    } else {
      assert (items + [CartItem(id, nome, preco, 1)])[..|items|] == items;
    }
  }

  lemma {:induction false} TotalBump(items: seq<CartItem>, k: nat)
    requires k < |items|
    ensures Total(items[k := items[k].(quantidade := items[k].quantidade + 1)]) == Total(items) + items[k].preco
    decreases |items|
  {
    var n := |items| - 1;
    var r := items[k := items[k].(quantidade := items[k].quantidade + 1)];
    assert r[..n] == if k < n then items[..n][k := items[k].(quantidade := items[k].quantidade + 1)] else items[..n];
    if k < n {
      TotalBump(items[..n], k);
    }
  }

  /** White space and line terminators as ECMAScript's `trim` removes them. */
  predicate IsJsSpace(c: char) {
    || c in {'\t', '\n', '\U{000B}', '\U{000C}', '\r', ' ', '\U{00A0}', '\U{1680}'}
    || ('\U{2000}' <= c <= '\U{200A}')
    || c in {'\U{2028}', '\U{2029}', '\U{202F}', '\U{205F}', '\U{3000}', '\U{FEFF}'}
  }

  /** A name is blank when `trim()` leaves nothing: every character is white space. */
  predicate IsBlank(s: string) {
    forall i :: 0 <= i < |s| ==> IsJsSpace(s[i])
  }

  /** What the submit handler did. */
  datatype Submission = BlankName | Sent(payload: seq<CartItem>, ok: bool)

  class Cart {
    var items: seq<CartItem>

    ghost predicate Valid()
      reads this
    {
      Distinct(Ids(items))
    }

    constructor ()
      ensures Valid() && items == []
    {
      items := [];
    }

    /** adicionarAoCarrinho: bump the existing entry or append a new one. */
    method Add(id: string, nome: string, preco: int)
      requires Valid()
      modifies this
      ensures Valid()
      ensures items == Added(old(items), id, nome, preco)
    {
      ghost var added := Added(items, id, nome, preco);
      AddedKeepsIdsDistinct(items, id, nome, preco);
      var i := IndexOf(items, id);
      if i.Some? {
        var item := items[i.value];
        items := items[i.value := item.(quantidade := item.quantidade + 1)];
      } else {
        items := items + [CartItem(id, nome, preco, 1)];
      }
      assert items == added;
    }

    /** The total that atualizarCarrinhoDisplay writes: 0 for an empty cart, else the running sum. */
    method DisplayedTotal() returns (t: int)
      ensures t == Total(items)
      ensures items == [] ==> t == 0
    {
      if |items| == 0 {
        return 0;
      }
      t := 0;
      var i := 0;
      while i < |items|
        invariant 0 <= i <= |items|
        invariant t == Total(items[..i])
      {
        assert items[..i + 1][..i] == items[..i];
        t := t + items[i].preco * items[i].quantidade;
        i := i + 1;
      }
      assert items[..i] == items;
    }

    /** The finalise button opens the name dialog only for a non-empty cart. */
    method OpenCheckout() returns (dialog: bool)
      ensures dialog <==> items != []
    {
      dialog := |items| != 0;
    }

    /** The name form: a blank name is refused; otherwise the cart is sent, and emptied
        once the reply parses as JSON (`replyParsed`), whatever its status; on a failed request or an unparsable reply the cart is kept. */
    method SubmitName(nomeCliente: string, replyParsed: bool) returns (s: Submission)
      requires Valid()
      modifies this
      ensures Valid()
      ensures s == if IsBlank(nomeCliente) then BlankName else Sent(old(items), replyParsed)
      ensures items == if s.Sent? && replyParsed then [] else old(items)
    {
      if IsBlank(nomeCliente) {
        return BlankName;
      }
      s := Sent(items, replyParsed);
      if replyParsed {
        items := [];
      }
    }
  }

  // ---------------------------------------------------------------------------
  // Product category filter
  // ---------------------------------------------------------------------------

  const AllCategories: string := "todos"

  /** A product card is shown when "todos" is selected or its lower-cased category equals the
      selected value; the selected value itself is compared as it is. */
  predicate ProductShown(selected: string, cardCategory: string) {
    selected == AllCategories || Lower(cardCategory) == selected
  }

  /** The click handler's loop over the product cards. */
  method ApplyCategoryFilter(selected: string, cards: seq<string>) returns (shown: seq<bool>)
    ensures |shown| == |cards|
    ensures forall i :: 0 <= i < |cards| ==> shown[i] == ProductShown(selected, cards[i])
  {
    shown := [];
    var i := 0;
    while i < |cards|
      invariant 0 <= i <= |cards|
      invariant |shown| == i
      invariant forall k :: 0 <= k < i ==> shown[k] == ProductShown(selected, cards[k])
    {
      shown := shown + [ProductShown(selected, cards[i])];
      i := i + 1;
    }
  }

  /** A selected value with an upper-case letter (other than "todos") matches no card at all. */
  lemma UpperCaseSelectionHidesAll(selected: string, cardCategory: string, k: int)
    requires selected != AllCategories && 0 <= k < |selected| && IsUpper(selected[k])
    ensures !ProductShown(selected, cardCategory)
  {
  }

  // ---------------------------------------------------------------------------
  // Dashboard search
  // ---------------------------------------------------------------------------

  /** A course card is shown when its lower-cased title contains the (lower-cased) search term. */
  predicate CardShown(term: string, title: string) {
    Contains(Lower(title), term)
  }

  /** A trilha section is shown when at least one of its cards is. */
  predicate SectionShown(term: string, titles: seq<string>) {
    exists i :: 0 <= i < |titles| && CardShown(term, titles[i])
  }

  /** Siblings in the dashboard: main titles, trilha sections (their card titles), anything else. */
  datatype Element = MainTitle | Trilha(cards: seq<string>) | Other

  /** A main title is shown when a shown trilha section follows it before the next main title. */
  ghost predicate TitleShown(page: seq<Element>, i: nat, term: string) {
    exists j :: i < j < |page| && page[j].Trilha? && SectionShown(term, page[j].cards)
      && forall k :: i < k < j ==> !page[k].MainTitle?
  }

  /** What the search leaves on each element. */
  datatype View = SectionView(shown: bool, cards: seq<bool>) | TitleView(shown: bool) | Untouched

  /** The inner loop over one section's cards, raising `trilhaTemResultados` on a match. */
  method FilterSection(term: string, titles: seq<string>) returns (cards: seq<bool>, any: bool)
    ensures |cards| == |titles| && forall i :: 0 <= i < |titles| ==> cards[i] == CardShown(term, titles[i])
    ensures any == SectionShown(term, titles)
  {
    cards, any := [], false;
    var i := 0;
    while i < |titles|
      invariant 0 <= i <= |titles| && |cards| == i
      invariant forall k :: 0 <= k < i ==> cards[k] == CardShown(term, titles[k])
      invariant any == exists k :: 0 <= k < i && CardShown(term, titles[k])
    {
      var hit := CardShown(term, titles[i]);
      cards := cards + [hit];
      if hit {
        any := true;
      }
      i := i + 1;
    }
  }

  /** The sibling walk after title `i`, stopping at the next main title or at the first shown section. */
  method TitleVisible(page: seq<Element>, i: nat, sections: seq<bool>, ghost term: string) returns (visible: bool)
    requires 0 <= i < |page| && |sections| == |page|
    requires forall j :: 0 <= j < |page| && page[j].Trilha? ==> sections[j] == SectionShown(term, page[j].cards)
    ensures visible == TitleShown(page, i, term)
  {
    var j := i + 1;
    visible := false;
    while j < |page| && !page[j].MainTitle?
      invariant i + 1 <= j <= |page|
      invariant forall k :: i < k < j ==> !page[k].MainTitle?
      invariant forall k :: i < k < j ==> !(page[k].Trilha? && sections[k])
    {
      if page[j].Trilha? && sections[j] {
        visible := true;
        break;
      }
      j := j + 1;
    }
  }

  /** The keyup handler: first every section and its cards, then every main title. */
  method Search(page: seq<Element>, box: string) returns (views: seq<View>)
    ensures |views| == |page|
    ensures forall i :: 0 <= i < |page| ==> (views[i] ==
      match page[i]
      case Trilha(cards) => SectionView(SectionShown(Lower(box), cards), seq(|cards|, k requires 0 <= k < |cards| => CardShown(Lower(box), cards[k])))
      case MainTitle => TitleView(TitleShown(page, i, Lower(box)))
      case Other => Untouched)
  {
    var term := Lower(box);
    var sections: seq<bool> := [];
    var cardViews: seq<seq<bool>> := [];
    var i := 0;
    while i < |page|
      invariant 0 <= i <= |page| && |sections| == i && |cardViews| == i
      invariant forall j :: 0 <= j < i && page[j].Trilha? ==> sections[j] == SectionShown(term, page[j].cards)
      invariant forall j :: 0 <= j < i && page[j].Trilha? ==>
        cardViews[j] == seq(|page[j].cards|, k requires 0 <= k < |page[j].cards| => CardShown(term, page[j].cards[k]))
    {
      if page[i].Trilha? {
        var cards, any := FilterSection(term, page[i].cards);
        assert cards == seq(|page[i].cards|, k requires 0 <= k < |page[i].cards| => CardShown(term, page[i].cards[k]));
        sections, cardViews := sections + [any], cardViews + [cards];
      } else {
        sections, cardViews := sections + [false], cardViews + [[]];
      }
      i := i + 1;
    }
    views := [];
    i := 0;
    while i < |page|
      invariant 0 <= i <= |page| && |views| == i
      invariant forall j :: 0 <= j < i ==> (views[j] ==
        match page[j]
        case Trilha(cards) => SectionView(sections[j], cardViews[j])
        case MainTitle => TitleView(TitleShown(page, j, term))
        case Other => Untouched)
    {
      var v: View;
      match page[i] {
        case Trilha(_) => v := SectionView(sections[i], cardViews[i]);
        case MainTitle =>
          var shown := TitleVisible(page, i, sections, term);
          v := TitleView(shown);
        case Other => v := Untouched;
      }
      views := views + [v];
      i := i + 1;
    }
  }

  /** With an empty search box every card is shown, a section is shown iff it has a card,
      and a title is shown iff a non-empty section follows it before the next title. */
  lemma EmptySearchShowsAll(page: seq<Element>, i: nat)
    requires 0 <= i < |page|
    ensures page[i].Trilha? ==> forall k :: 0 <= k < |page[i].cards| ==> CardShown(Lower(""), page[i].cards[k])
    ensures page[i].Trilha? ==> (SectionShown(Lower(""), page[i].cards) <==> page[i].cards != [])
    ensures TitleShown(page, i, Lower("")) <==>
      exists j :: i < j < |page| && page[j].Trilha? && page[j].cards != [] && forall k :: i < k < j ==> !page[k].MainTitle?
  {
    assert Lower("") == "";
    forall t: string ensures CardShown("", t) { ContainsEmpty(Lower(t)); }
    forall j | 0 <= j < |page| && page[j].Trilha?
      ensures SectionShown("", page[j].cards) <==> page[j].cards != []
    {
      if page[j].cards != [] {
        assert CardShown("", page[j].cards[0]);
      }
    }
  }
}
