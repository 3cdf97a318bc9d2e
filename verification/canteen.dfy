/**
 * The canteen (backend/app.py `finalizar_pedido`, `mudar_status_pedido`): order
 * submission against the product table, and the admin's order-status change.
 * Prices are integer cents.
 */
module Canteen {
  import opened Wrappers
  import opened Models

  /** Produto: catalogue price and current stock. */
  datatype Product = Product(nome: string, categoria: string, preco: int, estoque: int)

  /** Cliente: customers are matched by exact name; `contato` is optional. */
  datatype Customer = Customer(id: int, nome: string, contato: Option<string>)

  /** Pedido: `valorTotal` is computed from the prices the client submitted. */
  datatype Order = Order(clienteId: int, dataPedido: int, valorTotal: int, status: string)

  /** ItemPedido: one accepted cart line, at the catalogue price. */
  datatype OrderItem = OrderItem(pedidoId: int, produtoId: int, quantidade: int, precoUnitario: int)

  /** One line of the submitted cart: product id, name, the client's price and the quantity. */
  datatype CartLine = CartLine(id: int, nome: string, preco: int, quantidade: int)

  const InitialStatus: string := "Recebido"

  /** The statuses an admin may set. */
  const AllowedStatuses: seq<string> := ["Em Produção", "Disponível para Retirada", "Concluído"]

  /** Sum of submitted price times quantity over the whole cart. */
  function CartTotal(cart: seq<CartLine>): int {
    if cart == [] then 0 else cart[0].preco * cart[0].quantidade + CartTotal(cart[1..])
  }

  /** The total of a cart split in two is the sum of the totals of the halves. */
  lemma {:induction false} CartTotalAppend(a: seq<CartLine>, b: seq<CartLine>)
    ensures CartTotal(a + b) == CartTotal(a) + CartTotal(b)
  {
    if a == [] {
      assert a + b == b;
    } else {
      assert (a + b)[1..] == a[1..] + b;
      CartTotalAppend(a[1..], b);
    }
  }

  /** The first customer, in row order, whose name is exactly `nome`. */
  function FindCustomer(customers: seq<Customer>, nome: string): (r: Option<Customer>)
    ensures r.None? <==> forall i :: 0 <= i < |customers| ==> customers[i].nome != nome
    ensures r.Some? ==> exists i :: 0 <= i < |customers| && customers[i] == r.value && r.value.nome == nome
                          && forall j :: 0 <= j < i ==> customers[j].nome != nome
  {
    if customers == [] then None
    else if customers[0].nome == nome then Some(customers[0])
    else
      var r := FindCustomer(customers[1..], nome);
      assert forall i :: 1 <= i < |customers| ==> customers[i] == customers[1..][i - 1];
      if r.Some? then
        var i :| 0 <= i < |customers[1..]| && customers[1..][i] == r.value && r.value.nome == nome
                 && forall j :: 0 <= j < i ==> customers[1..][j].nome != nome;
        assert customers[i + 1] == r.value;
        r
      else r
  }

  // ---------------------------------------------------------------------------
  // The stock loop, as a specification over the product table
  // ---------------------------------------------------------------------------

  /** The product table and the items created so far. */
  datatype Fulfilment = Fulfilment(stock: map<int, Product>, items: seq<OrderItem>)

  /** A line is accepted when its product exists and the current stock covers the quantity. */
  predicate Accepts(stock: map<int, Product>, line: CartLine) {
    line.id in stock && stock[line.id].estoque >= line.quantidade
  }

  /** One iteration: an accepted line adds an item at the catalogue price and lowers the stock. */
  function Step(f: Fulfilment, line: CartLine, pedidoId: int): (r: Fulfilment)
    ensures r.stock.Keys == f.stock.Keys
    ensures r == f <==> !Accepts(f.stock, line)
  {
    if Accepts(f.stock, line) then
      var p := f.stock[line.id];
      Fulfilment(f.stock[line.id := p.(estoque := p.estoque - line.quantidade)],
                 f.items + [OrderItem(pedidoId, line.id, line.quantidade, p.preco)])
    else f
  }

  /** The loop over the cart, line by line, each line seeing the stock left by the earlier ones. */
  function Fulfil(stock: map<int, Product>, cart: seq<CartLine>, pedidoId: int): (f: Fulfilment)
    ensures f.stock.Keys == stock.Keys
    decreases |cart|
  {
    if cart == [] then Fulfilment(stock, [])
    else Step(Fulfil(stock, cart[..|cart| - 1], pedidoId), cart[|cart| - 1], pedidoId)
  }

  /** Total quantity the items take from product `id`. */
  function Taken(items: seq<OrderItem>, id: int): int {
    if items == [] then 0
    else Taken(items[..|items| - 1], id) + (if items[|items| - 1].produtoId == id then items[|items| - 1].quantidade else 0)
  }

  /** The loop never adds or removes products, never changes a name, category or price,
      and lowers each product's stock by exactly the quantity its accepted items take. */
  lemma {:induction false} FulfilConserves(stock: map<int, Product>, cart: seq<CartLine>, pedidoId: int)
    ensures var f := Fulfil(stock, cart, pedidoId);
      && f.stock.Keys == stock.Keys
      && forall id :: id in stock ==>
           && f.stock[id] == stock[id].(estoque := f.stock[id].estoque)
           && f.stock[id].estoque == stock[id].estoque - Taken(f.items, id)
    decreases |cart|
  {
    if cart != [] {
      var front := cart[..|cart| - 1];
      FulfilConserves(stock, front, pedidoId);
      var g := Fulfil(stock, front, pedidoId);
      var line := cart[|cart| - 1];
      if Accepts(g.stock, line) {
        var f := Fulfil(stock, cart, pedidoId);
        assert f.items[..|f.items| - 1] == g.items;
      }
    }
  }

  /** Every item is for an existing product, belongs to this order, and carries the catalogue price. */
  lemma {:induction false} FulfilItems(stock: map<int, Product>, cart: seq<CartLine>, pedidoId: int)
    ensures var f := Fulfil(stock, cart, pedidoId);
      && |f.items| <= |cart|
      && forall k :: 0 <= k < |f.items| ==>
           && f.items[k].produtoId in stock
           && f.items[k].pedidoId == pedidoId
           && f.items[k].precoUnitario == stock[f.items[k].produtoId].preco
    decreases |cart|
  {
    if cart != [] {
      var front := cart[..|cart| - 1];
      FulfilItems(stock, front, pedidoId);
      assert front + [cart[|cart| - 1]] == cart;
      FulfilSnoc(stock, front, cart[|cart| - 1], pedidoId);
    }
  }

  /** Appending a line to the cart runs exactly one more iteration: an accepted line adds one item
      for its product, its quantity and the catalogue price, and lowers that product's stock by the
      quantity; a refused line changes nothing. */
  lemma FulfilSnoc(stock: map<int, Product>, cart: seq<CartLine>, line: CartLine, pedidoId: int)
    ensures var g := Fulfil(stock, cart, pedidoId);
      var f := Fulfil(stock, cart + [line], pedidoId);
      if Accepts(g.stock, line) then
        && f.items == g.items + [OrderItem(pedidoId, line.id, line.quantidade, stock[line.id].preco)]
        && f.stock == g.stock[line.id := g.stock[line.id].(estoque := g.stock[line.id].estoque - line.quantidade)]
      else f == g
  {
    assert (cart + [line])[..|cart|] == cart;
    var g := Fulfil(stock, cart, pedidoId);
    assert Fulfil(stock, cart + [line], pedidoId) == Step(g, line, pedidoId);
    if Accepts(g.stock, line) {
      FulfilConserves(stock, cart, pedidoId);
      assert g.stock[line.id].preco == stock[line.id].preco;
    }
  }

  /** The cart lines the loop accepts, in cart order. */
  function AcceptedLines(stock: map<int, Product>, cart: seq<CartLine>, pedidoId: int): (r: seq<CartLine>)
    ensures |r| <= |cart|
    ensures forall k :: 0 <= k < |r| ==> r[k] in cart
    decreases |cart|
  {
    if cart == [] then []
    else
      var front := cart[..|cart| - 1];
      var line := cart[|cart| - 1];
      var acc := AcceptedLines(stock, front, pedidoId);
      assert forall k :: 0 <= k < |acc| ==> acc[k] in cart by {
        forall k | 0 <= k < |acc| ensures acc[k] in cart {
          var j :| 0 <= j < |front| && front[j] == acc[k];
          assert cart[j] == acc[k];
        }
      }
      acc + (if Accepts(Fulfil(stock, front, pedidoId).stock, line) then [line] else [])
  }

  /** Total quantity of the lines naming product `id`. */
  function LineQuantity(lines: seq<CartLine>, id: int): int {
    if lines == [] then 0
    else LineQuantity(lines[..|lines| - 1], id) + (if lines[|lines| - 1].id == id then lines[|lines| - 1].quantidade else 0)
  }

  /** The items are the accepted lines, one for one and in order, each at its product's catalogue price. */
  lemma {:induction false} FulfilItemsAreAcceptedLines(stock: map<int, Product>, cart: seq<CartLine>, pedidoId: int)
    ensures var f := Fulfil(stock, cart, pedidoId);
      var acc := AcceptedLines(stock, cart, pedidoId);
      && |f.items| == |acc|
      && forall k :: 0 <= k < |acc| ==>
           acc[k].id in stock && f.items[k] == OrderItem(pedidoId, acc[k].id, acc[k].quantidade, stock[acc[k].id].preco)
    decreases |cart|
  {
    if cart != [] {
      var front := cart[..|cart| - 1];
      var line := cart[|cart| - 1];
      FulfilItemsAreAcceptedLines(stock, front, pedidoId);
      assert front + [line] == cart;
      FulfilSnoc(stock, front, line, pedidoId);
      var a := AcceptedLines(stock, front, pedidoId);
      if Accepts(Fulfil(stock, front, pedidoId).stock, line) {
        assert AcceptedLines(stock, cart, pedidoId) == a + [line];
      } else {
        assert AcceptedLines(stock, cart, pedidoId) == a;
      }
    }
  }

  /** Items matching lines one for one (same product, same quantity) take what the lines name. */
  lemma {:induction false} TakenMatchesLines(items: seq<OrderItem>, lines: seq<CartLine>, id: int)
    requires |items| == |lines|
    requires forall k :: 0 <= k < |items| ==> items[k].produtoId == lines[k].id && items[k].quantidade == lines[k].quantidade
    ensures Taken(items, id) == LineQuantity(lines, id)
    decreases |items|
  {
    if items != [] {
      var n := |items| - 1;
      assert forall k :: 0 <= k < n ==> items[..n][k] == items[k] && lines[..n][k] == lines[k];
      TakenMatchesLines(items[..n], lines[..n], id);
    }
  }

  /** The stock the loop takes from a product is the quantity summed over the accepted lines that name it. */
  lemma FulfilTakesAcceptedQuantity(stock: map<int, Product>, cart: seq<CartLine>, pedidoId: int, id: int)
    ensures Taken(Fulfil(stock, cart, pedidoId).items, id) == LineQuantity(AcceptedLines(stock, cart, pedidoId), id)
  {
    FulfilItemsAreAcceptedLines(stock, cart, pedidoId);
    TakenMatchesLines(Fulfil(stock, cart, pedidoId).items, AcceptedLines(stock, cart, pedidoId), id);
  }

  /** Products that no cart line names keep their row untouched. */
  lemma {:induction false} FulfilUntouched(stock: map<int, Product>, cart: seq<CartLine>, pedidoId: int, id: int)
    requires id in stock && forall k :: 0 <= k < |cart| ==> cart[k].id != id
    ensures Fulfil(stock, cart, pedidoId).stock[id] == stock[id]
    decreases |cart|
  {
    if cart != [] {
      var front := cart[..|cart| - 1];
      FulfilUntouched(stock, front, pedidoId, id);
      FulfilConserves(stock, front, pedidoId);
    }
  }

  /** With non-negative stock and quantities, stock never goes below zero. */
  lemma {:induction false} FulfilNonNegative(stock: map<int, Product>, cart: seq<CartLine>, pedidoId: int)
    requires forall id :: id in stock ==> stock[id].estoque >= 0
    requires forall k :: 0 <= k < |cart| ==> cart[k].quantidade >= 0
    ensures var f := Fulfil(stock, cart, pedidoId);
      forall id :: id in f.stock ==> f.stock[id].estoque >= 0
    decreases |cart|
  {
    if cart != [] {
      var front := cart[..|cart| - 1];
      FulfilNonNegative(stock, front, pedidoId);
      FulfilConserves(stock, front, pedidoId);
    }
  }

  /** A negative quantity is accepted whenever the product exists, and raises its stock. */
  lemma NegativeQuantityRaisesStock(stock: map<int, Product>, line: CartLine, pedidoId: int)
    requires line.id in stock && stock[line.id].estoque >= 0 && line.quantidade < 0
    ensures Fulfil(stock, [line], pedidoId).stock[line.id].estoque > stock[line.id].estoque
  {
    assert [line][..0] == [];
  }

  /** A dropped line still counts towards the order total: one line over stock, one within it. */
  lemma {:induction false} DroppedLineStillCharged()
    ensures var stock := map[1 := Product("Coxinha", "Salgados", 500, 1), 2 := Product("Suco", "Bebidas", 300, 10)];
      var cart := [CartLine(1, "Coxinha", 500, 2), CartLine(2, "Suco", 300, 1)];
      var f := Fulfil(stock, cart, 7);
      && CartTotal(cart) == 1300
      && f.items == [OrderItem(7, 2, 1, 300)]
      && f.stock[1].estoque == 1 && f.stock[2].estoque == 9
  {
    var cart := [CartLine(1, "Coxinha", 500, 2), CartLine(2, "Suco", 300, 1)];
    assert cart[..1] == [cart[0]];
    assert cart[..1][..0] == [];
  }

  // ---------------------------------------------------------------------------
  // The canteen tables and the two routes
  // ---------------------------------------------------------------------------

  /** Outcome of an admin route that targets one order. */
  datatype StatusOutcome = Forbidden | NotFound | InvalidStatus | Changed

  class Canteen {
    var products: map<int, Product>
    var customers: seq<Customer>
    var orders: map<int, Order>
    var items: seq<OrderItem>
    var nextCustomerId: int
    var nextOrderId: int

    /** Auto-increment ids: every existing id is below the next one handed out. */
    ghost predicate Valid()
      reads this
    {
      && (forall i :: 0 <= i < |customers| ==> customers[i].id < nextCustomerId)
      && (forall id :: id in orders ==> id < nextOrderId)
    }

    constructor (products: map<int, Product>)
      ensures Valid()
      ensures this.products == products && customers == [] && orders == map[] && items == []
    {
      this.products := products;
      customers, orders, items := [], map[], [];
      nextCustomerId, nextOrderId := 1, 1;
    }

    /** finalizar_pedido: find-or-create the customer by exact name, record the order with the
        submitted total, then accept each line the stock covers at that moment. */
    method FinalizeOrder(nomeCliente: string, carrinho: seq<CartLine>, now: int) returns (pedidoId: int)
      requires Valid()
      modifies this
      ensures Valid()
      ensures var found := FindCustomer(old(customers), nomeCliente);
        && (found.Some? ==> customers == old(customers) && nextCustomerId == old(nextCustomerId))
        && (found.None? ==> customers == old(customers) + [Customer(old(nextCustomerId), nomeCliente, None)]
                            && nextCustomerId == old(nextCustomerId) + 1)
        && var clienteId := if found.Some? then found.value.id else old(nextCustomerId);
           orders == old(orders)[pedidoId := Order(clienteId, now, CartTotal(carrinho), InitialStatus)]
      ensures pedidoId == old(nextOrderId) && pedidoId !in old(orders) && nextOrderId == pedidoId + 1
      ensures var f := Fulfil(old(products), carrinho, pedidoId);
        products == f.stock && items == old(items) + f.items
    {
      var cliente := FindCustomer(customers, nomeCliente);
      var clienteId: int;
      if cliente.Some? {
        clienteId := cliente.value.id;
      } else {
        clienteId := nextCustomerId;
        customers := customers + [Customer(clienteId, nomeCliente, None)];
        nextCustomerId := nextCustomerId + 1;
      }
      var valorTotal := CartTotal(carrinho);
      pedidoId := nextOrderId;
      orders := orders[pedidoId := Order(clienteId, now, valorTotal, InitialStatus)];
      nextOrderId := nextOrderId + 1;

      AcceptLines(carrinho, pedidoId);
    }

    /** The loop of finalizar_pedido: each line whose product exists and whose stock covers the
        quantity becomes an order item at the product's current price and takes from the stock. */
    method AcceptLines(carrinho: seq<CartLine>, pedidoId: int)
      modifies this
      ensures var f := Fulfil(old(products), carrinho, pedidoId);
        products == f.stock && items == old(items) + f.items
      ensures customers == old(customers) && orders == old(orders)
      ensures nextCustomerId == old(nextCustomerId) && nextOrderId == old(nextOrderId)
    {
      var i := 0;
      while i < |carrinho|
        invariant 0 <= i <= |carrinho|
        invariant products == Fulfil(old(products), carrinho[..i], pedidoId).stock
        invariant items == old(items) + Fulfil(old(products), carrinho[..i], pedidoId).items
        invariant customers == old(customers) && orders == old(orders)
        invariant nextCustomerId == old(nextCustomerId) && nextOrderId == old(nextOrderId)
      {
        var line := carrinho[i];
        assert carrinho[..i + 1][..i] == carrinho[..i];
        if line.id in products && products[line.id].estoque >= line.quantidade {
          var produto := products[line.id];
          items := items + [OrderItem(pedidoId, line.id, line.quantidade, produto.preco)];
          products := products[line.id := produto.(estoque := produto.estoque - line.quantidade)];
        }
        i := i + 1;
      }
      assert carrinho[..i] == carrinho;
    }

    /** mudar_status_pedido: only the three listed statuses are accepted; anything else changes nothing. */
    method ChangeOrderStatus(actor: Actor, pedidoId: int, novoStatus: string) returns (o: StatusOutcome)
      requires Valid()
      modifies this
      ensures Valid()
      ensures o == (if !actor.isAdmin then Forbidden
                    else if pedidoId !in old(orders) then NotFound
                    else if novoStatus !in AllowedStatuses then InvalidStatus
                    else Changed)
      ensures o == Changed || o == InvalidStatus ==>
        orders == old(orders)[pedidoId := old(orders)[pedidoId].(status := NextStatus(old(orders)[pedidoId].status, novoStatus))]
      ensures o != Changed ==> orders == old(orders)
      ensures products == old(products) && customers == old(customers) && items == old(items)
      ensures nextCustomerId == old(nextCustomerId) && nextOrderId == old(nextOrderId)
    {
      if !actor.isAdmin {
        return Forbidden;
      }
      if pedidoId !in orders {
        return NotFound;
      }
      if novoStatus in AllowedStatuses {
        orders := orders[pedidoId := orders[pedidoId].(status := NextStatus(orders[pedidoId].status, novoStatus))];
        o := Changed;
      } else {
        assert orders[pedidoId].(status := NextStatus(orders[pedidoId].status, novoStatus)) == orders[pedidoId];
        o := InvalidStatus;
      }
    }
  }

  /** The status whitelist, as a pure rule: the new status is the requested one exactly when it is listed. */
  function NextStatus(current: string, requested: string): (r: string)
    ensures r == requested || r == current
    ensures r == requested <==> requested in AllowedStatuses || requested == current
  {
    if requested in AllowedStatuses then requested else current
  }
}
