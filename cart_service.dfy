/** The cart service over its two collections: one cart per retailer and the
    orders checkout creates. Each method reads the stored documents, changes
    the line list in place as the service's loops do, and writes back. */
module CartStore {
  import opened Common
  import opened Errors
  import opened Catalog
  import opened Wholesalers
  import opened Addresses
  import opened Orders
  import opened Carts
  import opened Checkout
  import opened Products

  /** The scan that looks for the line a request is about; it stops at the
      first match. */
  method LocateLine(itens: seq<CartLine>, key: LineKey) returns (i: nat)
    ensures i <= |itens|
    ensures i == FirstMatch(itens, key)
  {
    i := 0;
    while i < |itens|
      invariant 0 <= i <= |itens|
      invariant forall k :: 0 <= k < i ==> !Matches(itens[k], key)
    {
      if Matches(itens[i], key) {
        FirstMatchIs(itens, key, i);
        return;
      }
      i := i + 1;
    }
    FirstMatchIs(itens, key, i);
  }

  /** The grouping loop of checkout: a dictionary from wholesaler to its
      lines, whose keys keep the order in which they were first inserted. */
  method GroupByWholesaler(itens: seq<CartLine>) returns (keys: seq<string>, groups: map<string, seq<CartLine>>)
    ensures keys == GroupKeys(itens)
    ensures forall w :: w in groups <==> w in keys
    ensures forall w :: w in groups ==> groups[w] == LinesOf(itens, w)
  {
    keys := [];
    groups := map[];
    var i := 0;
    while i < |itens|
      invariant 0 <= i <= |itens|
      invariant keys == GroupKeys(itens[..i])
      invariant groups == Grouping(itens[..i])
    {
      var item := itens[i];
      TakeSnoc(itens, i);
      GroupKeysSnoc(itens[..i], item);
      GroupingSnoc(itens[..i], item);
      GroupingKeys(itens[..i]);
      if item.atacadistaId in groups {
        groups := groups[item.atacadistaId := groups[item.atacadistaId] + [item]];
      } else {
        keys := keys + [item.atacadistaId];
        groups := groups[item.atacadistaId := [item]];
      }
      i := i + 1;
    }
    assert itens[..i] == itens;
    GroupingKeys(itens);
    forall w | w in groups ensures groups[w] == LinesOf(itens, w) {
      GroupingLines(itens, w);
    }
  }

  /** `_get_precos_produto`: the price table of a product, empty when the
      product is gone. */
  method ProductPrices(catalog: map<string, Product>, produtoId: string) returns (precos: seq<PriceEntry>)
    ensures produtoId !in catalog ==> precos == []
    ensures produtoId in catalog ==> precos == PriceList(catalog[produtoId])
  {
    if produtoId !in catalog {
      return [];
    }
    precos := BuildPriceTable(catalog[produtoId]);
  }

  /** The check that every wholesaler of the cart has an entry in the
      request: the position of the first that has none, or `|keys|`. */
  method FirstMissingSelection(keys: seq<string>, escolhas: map<string, Selection>) returns (i: nat)
    ensures i == FirstUnselected(keys, escolhas)
  {
    i := 0;
    while i < |keys|
      invariant 0 <= i <= |keys|
      invariant forall k :: 0 <= k < i ==> keys[k] in escolhas
    {
      if keys[i] !in escolhas {
        FirstUnselectedIs(keys, escolhas, i);
        return;
      }
      i := i + 1;
    }
    FirstUnselectedIs(keys, escolhas, i);
  }

  /** The checks and the order document of one group, as the loop body of
      checkout computes them, the offered terms normalised on the spot. */
  method BuildGroupOrder(w: string, lines: seq<CartLine>, sel: Selection, wholesalers: map<string, Wholesaler>,
                         addrs: map<string, Address>, catalog: map<string, Product>, varejistaId: string, now: int)
    returns (r: Result<Order, ServiceError>)
    ensures r == GroupOrder(w, lines, sel, wholesalers, addrs, catalog, varejistaId, now)
  {
    if w !in wholesalers {
      return Err(WholesalerNotFound(w));
    }
    var atacadista := wholesalers[w];
    var condicoes := NormalizePaymentTerms(atacadista);
    var condicao := ChosenTerm(sel);
    if condicao !in condicoes {
      return Err(InvalidPaymentTerm(w));
    }
    r := PlaceGroupOrder(w, atacadista, condicao, lines, sel, addrs, catalog, varejistaId, now);
  }

  /** The rest of the loop body: the minimum order value, the delivery
      address, then the order document. */
  method PlaceGroupOrder(w: string, atacadista: Wholesaler, condicao: string, lines: seq<CartLine>, sel: Selection,
                         addrs: map<string, Address>, catalog: map<string, Product>, varejistaId: string, now: int)
    returns (r: Result<Order, ServiceError>)
    ensures r == PlacedOrder(w, atacadista, condicao, lines, sel, addrs, catalog, varejistaId, now)
    ensures Sum(lines) < MinimumOrder(atacadista) ==>
              r.Err? && r.error.MinOrderNotReached? &&
              r.error.detail.faltante == MinimumOrder(atacadista) - Sum(lines)
    ensures Sum(lines) >= MinimumOrder(atacadista) ==>
              && (sel.enderecoId !in addrs ==> r == Err(DeliveryAddressNotFound(w)))
              && (sel.enderecoId in addrs <==> r.Ok?)
    ensures r.Ok? ==>
              && r.value.atacadistaId == w && r.value.varejistaId == varejistaId && r.value.status == Pendente
              && r.value.condicaoPagamento == condicao && r.value.enderecoEntrega == addrs[sel.enderecoId]
              && r.value.valorTotal == Sum(lines) == ItemsTotal(r.value.itens)
  {
    OrderLinesTotal(lines, catalog);
    var minimo := MinimumOrder(atacadista);
    var total := Sum(lines);
    if total < minimo {
      return Err(MinOrderNotReached(MinimumOrderDetail(w, NameOrId(atacadista, w), total, minimo, minimo - total)));
    }
    if sel.enderecoId !in addrs {
      return Err(DeliveryAddressNotFound(w));
    }
    return Ok(Order(w, varejistaId, condicao, addrs[sel.enderecoId], OrderLines(lines, catalog), total, Pendente, now));
  }

  /** The rewrite `atualizar_item` makes once it has found the product's
      first line `i`. */
  method RewriteLine(carrinho: Cart, i: nat, catalog: map<string, Product>, produtoId: string, req: UpdateRequest,
                     now: int) returns (r: Result<Cart, ServiceError>)
    requires i < |carrinho.itens|
    ensures r == UpdatedCart(carrinho, i, catalog, produtoId, req, now)
  {
    var itens := carrinho.itens;
    if req.quantidade == 0 {
      itens := itens[..i] + itens[i + 1..];
    } else {
      var unidade := if Filled(req.unidadeMedida) then req.unidadeMedida.value else itens[i].unidadeMedida;
      if produtoId !in catalog {
        return Err(ProductNotFound);
      }
      var produto := catalog[produtoId];
      var preco := UnitPrice(produto, unidade);
      if preco.Err? {
        return Err(preco.error);
      }
      itens := itens[i := itens[i].(quantidade := req.quantidade, unidadeMedida := unidade,
                                    precoUnitario := preco.value, subtotal := LineTotal(preco.value, req.quantidade),
                                    descricaoProduto := produto.descricao)];
    }
    return Ok(carrinho.(itens := itens, valorTotal := Sum(itens), atualizadoEm := now));
  }

  /** The loop of `duplicar_pedido`: the order's items merged into the cart
      lines one by one; the first unit without a price aborts it. */
  method MergeItems(linhas: seq<CartLine>, w: string, pedidoItens: seq<OrderItem>, catalog: map<string, Product>)
    returns (r: Result<seq<CartLine>, ServiceError>)
    ensures r == MergeOrder(linhas, w, pedidoItens, catalog)
  {
    var itens := linhas;
    var j := 0;
    while j < |pedidoItens|
      invariant 0 <= j <= |pedidoItens|
      invariant MergeOrder(linhas, w, pedidoItens[..j], catalog) == Ok(itens)
    {
      var it := pedidoItens[j];
      TakeSnoc(pedidoItens, j);
      MergeOrderSnoc(linhas, w, pedidoItens[..j], it, catalog);
      var next := MergeOne(itens, w, it, catalog);
      if next.Err? {
        MergeOrderStopsAtFailure(linhas, w, pedidoItens, j + 1, catalog);
        return next;
      }
      itens := next.value;
      j := j + 1;
    }
    assert pedidoItens[..j] == pedidoItens;
    return Ok(itens);
  }

  /** One turn of that loop: an unusable item is skipped, an unpriced unit
      fails, otherwise the item's quantity joins the cart. */
  method MergeOne(itens: seq<CartLine>, w: string, it: OrderItem, catalog: map<string, Product>)
    returns (r: Result<seq<CartLine>, ServiceError>)
    ensures r == MergeOrderItem(itens, w, it, catalog)
  {
    if it.produtoId == "" || it.unidade == "" || it.quantidade <= 0 || it.produtoId !in catalog {
      return Ok(itens);
    }
    var produto := catalog[it.produtoId];
    var preco := UnitPrice(produto, it.unidade);
    if preco.Err? {
      return Err(preco.error);
    }
    var i := LocateLine(itens, ProductWholesalerUnitKey(it.produtoId, w, it.unidade));
    if i < |itens| {
      var q := itens[i].quantidade + it.quantidade;
      return Ok(itens[i := itens[i].(quantidade := q, precoUnitario := preco.value, subtotal := LineTotal(preco.value, q),
                                     descricaoProduto := produto.descricao)]);
    }
    return Ok(itens + [NewLine(it.produtoId, produto.descricao, w, it.quantidade, it.unidade, preco.value)]);
  }

  class CartService {
    /** The `carrinhos` collection, by retailer id. */
    var carts: map<string, Cart>
    /** The `pedidos` collection; an order's id is its position. */
    var orders: seq<Order>

    /** Every cart is filed under its retailer and consistent; every order's
        total is the sum of its item totals. */
    ghost predicate Valid()
      reads this
    {
      && (forall v :: v in carts ==> carts[v].varejistaId == v && ConsistentCart(carts[v]))
      && (forall k :: 0 <= k < |orders| ==> ItemsTotal(orders[k].itens) == orders[k].valorTotal)
    }

    constructor ()
      ensures Valid() && carts == map[] && orders == []
    {
      carts := map[];
      orders := [];
    }

    /** `adicionar_ou_atualizar_item`. */
    method AddOrUpdateItem(varejistaId: string, req: AddRequest, catalog: map<string, Product>, now: int)
      returns (r: Result<Cart, ServiceError>)
      requires Valid() && req.quantidade >= 1
      modifies this
      ensures Valid()
      ensures r == AddItem(old(carts), catalog, varejistaId, req, now)
      ensures carts == (if r.Ok? then old(carts)[varejistaId := r.value] else old(carts))
      ensures orders == old(orders)
    {
      if req.produtoId !in catalog {
        return Err(ProductNotFound);
      }
      var produto := catalog[req.produtoId];
      if produto.atacadistaId != Some(req.atacadistaId) {
        return Err(ProductNotFromWholesaler);
      }
      var preco := UnitPrice(produto, req.unidadeMedida);
      if preco.Err? {
        return Err(preco.error);
      }
      var carrinho := StoredOrEmpty(carts, varejistaId, now);
      var itens := carrinho.itens;
      var line := NewLine(req.produtoId, produto.descricao, req.atacadistaId, req.quantidade, req.unidadeMedida, preco.value);
      var i := LocateLine(itens, ProductWholesalerKey(req.produtoId, req.atacadistaId));
      if i < |itens| {
        itens := itens[i := line];
      } else {
        itens := itens + [line];
      }
      AddKeepsLinesPriced(carrinho.itens, req, produto.descricao, preco.value);
      carrinho := carrinho.(itens := itens, valorTotal := Sum(itens), atualizadoEm := now);
      carts := carts[varejistaId := carrinho];
      return Ok(carrinho);
    }

    /** `atualizar_item`. */
    method UpdateCartItem(varejistaId: string, produtoId: string, req: UpdateRequest, catalog: map<string, Product>,
                          now: int) returns (r: Result<Cart, ServiceError>)
      requires Valid()
      modifies this
      ensures Valid()
      ensures r == UpdateItem(old(carts), catalog, varejistaId, produtoId, req, now)
      ensures carts == (if r.Ok? then old(carts)[varejistaId := r.value] else old(carts))
      ensures orders == old(orders)
    {
      if varejistaId !in carts {
        return Err(CartNotFound);
      }
      var carrinho := carts[varejistaId];
      var i := LocateLine(carrinho.itens, ProductKey(produtoId));
      if i == |carrinho.itens| {
        return Err(ItemNotFound);
      }
      r := RewriteLine(carrinho, i, catalog, produtoId, req, now);
      if r.Ok? {
        UpdateKeepsLinesPriced(carts, catalog, varejistaId, produtoId, req, now);
        carts := carts[varejistaId := r.value];
      }
    }

    /** `remover_item`: Ok(None) when the cart was deleted for being empty. */
    method RemoveCartItem(varejistaId: string, produtoId: string, now: int) returns (r: Result<Option<Cart>, ServiceError>)
      requires Valid()
      modifies this
      ensures Valid()
      ensures r == RemoveItem(old(carts), varejistaId, produtoId, now)
      ensures r.Err? ==> carts == old(carts)
      ensures r == Ok(None) ==> carts == old(carts) - {varejistaId}
      ensures r.Ok? && r.value.Some? ==> carts == old(carts)[varejistaId := r.value.value]
      ensures orders == old(orders)
    {
      if varejistaId !in carts {
        return Err(CartNotFound);
      }
      var carrinho := carts[varejistaId];
      var novaLista := WithoutProduct(carrinho.itens, produtoId);
      if |novaLista| == |carrinho.itens| {
        return Err(ItemNotFound);
      }
      if novaLista == [] {
        carts := carts - {varejistaId};
        return Ok(None);
      }
      WithoutProductPriced(carrinho.itens, produtoId);
      carrinho := carrinho.(itens := novaLista, valorTotal := Sum(novaLista), atualizadoEm := now);
      carts := carts[varejistaId := carrinho];
      return Ok(Some(carrinho));
    }

    /** `limpar_carrinho`: the retailer's cart is deleted, whether or not it
        exists. */
    method ClearCart(varejistaId: string)
      requires Valid()
      modifies this
      ensures Valid()
      ensures varejistaId !in carts
      ensures carts == old(carts) - {varejistaId} && orders == old(orders)
    {
      carts := carts - {varejistaId};
    }

    /** `duplicar_pedido`: the order's items merged into the cart one by one. */
    method DuplicateIntoCart(varejistaId: string, pedidoId: nat, catalog: map<string, Product>, now: int)
      returns (r: Result<Cart, ServiceError>)
      requires Valid()
      modifies this
      ensures Valid()
      ensures r == DuplicateOrder(old(carts), old(orders), catalog, varejistaId, pedidoId, now)
      ensures carts == (if r.Ok? then old(carts)[varejistaId := r.value] else old(carts))
      ensures orders == old(orders)
    {
      if pedidoId >= |orders| || orders[pedidoId].varejistaId != varejistaId {
        return Err(OrderNotFound);
      }
      var pedido := orders[pedidoId];
      var carrinho := StoredOrEmpty(carts, varejistaId, now);
      var merged := MergeItems(carrinho.itens, pedido.atacadistaId, pedido.itens, catalog);
      if merged.Err? {
        return Err(merged.error);
      }
      MergeOrderPriced(carrinho.itens, pedido.atacadistaId, pedido.itens, catalog);
      carrinho := carrinho.(itens := merged.value, valorTotal := Sum(merged.value), atualizadoEm := now);
      carts := carts[varejistaId := carrinho];
      return Ok(carrinho);
    }

    /** `insert_one` on the orders collection: the new order's id is the
        position it is stored at. */
    method InsertOrder(o: Order) returns (pedidoId: nat)
      requires Valid() && ItemsTotal(o.itens) == o.valorTotal
      modifies this
      ensures Valid()
      ensures orders == old(orders) + [o] && carts == old(carts)
      ensures pedidoId == |old(orders)| && orders[pedidoId] == o
    {
      pedidoId := |orders|;
      orders := orders + [o];
    }

    /** One turn of the group loop, for the `g`-th wholesaler of the cart:
        the group's order is built and, when every check passes, stored,
        and its summary made. `results` is what each group yields. */
    method StoreGroupOrder(keys: seq<string>, g: nat, grupos: map<string, seq<CartLine>>,
                           escolhas: map<string, Selection>, wholesalers: map<string, Wholesaler>,
                           enderecosPorId: map<string, Address>, catalog: map<string, Product>, varejistaId: string,
                           now: int, ghost results: seq<Result<Order, ServiceError>>)
      returns (o: Result<Order, ServiceError>, resumo: OrderSummary)
      requires Valid()
      requires g < |keys|
      requires GroupsYield(results, keys, grupos, escolhas, wholesalers, enderecosPorId, catalog, varejistaId, now)
      modifies this
      ensures Valid()
      ensures o == results[g]
      ensures carts == old(carts)
      ensures o.Err? ==> orders == old(orders)
      ensures o.Ok? ==> orders == old(orders) + [o.value] &&
                        resumo == OrderSummary(|old(orders)|, o.value.atacadistaId, o.value.valorTotal)
    {
      var w := keys[g];
      o := BuildGroupOrder(w, grupos[w], escolhas[w], wholesalers, enderecosPorId, catalog, varejistaId, now);
      resumo := OrderSummary(|orders|, w, 0);
      if o.Ok? {
        GroupOrderStorable(w, grupos[w], escolhas[w], wholesalers, enderecosPorId, catalog, varejistaId, now);
        var pedidoId := InsertOrder(o.value);
        resumo := OrderSummary(pedidoId, w, o.value.valorTotal);
      }
    }

    /** The group loop of `finalizar_carrinho`: each group's order is built
        and inserted before the next group is looked at; the first failing
        group ends the loop (the service raises there, which `failure`
        records). `results` is what each group yields. */
    method CreateGroupOrders(keys: seq<string>, grupos: map<string, seq<CartLine>>, escolhas: map<string, Selection>,
                             wholesalers: map<string, Wholesaler>, enderecosPorId: map<string, Address>,
                             catalog: map<string, Product>, varejistaId: string, now: int,
                             ghost results: seq<Result<Order, ServiceError>>)
      returns (gerados: seq<OrderSummary>, failure: Option<ServiceError>, ghost created: seq<Order>)
      requires Valid()
      requires GroupsYield(results, keys, grupos, escolhas, wholesalers, enderecosPorId, catalog, varejistaId, now)
      modifies this
      ensures Valid()
      ensures RunGroups(results) == Outcome(created, failure)
      ensures orders == old(orders) + created && carts == old(carts)
      ensures gerados == Summaries(created, |old(orders)|)
    {
      created := [];
      gerados := [];
      failure := None;
      var g := 0;
      while g < |keys| && failure.None?
        invariant 0 <= g <= |keys|
        invariant RunGroups(results[..g]) == Outcome(created, failure)
        invariant orders == old(orders) + created && carts == old(carts)
        invariant gerados == Summaries(created, |old(orders)|)
        invariant Valid()
      {
        TakeSnoc(results, g);
        RunGroupsSnoc(results[..g], results[g]);
        var o, resumo := StoreGroupOrder(keys, g, grupos, escolhas, wholesalers, enderecosPorId, catalog, varejistaId,
                                         now, results);
        if o.Err? {
          failure := Some(o.error);
        } else {
          SummariesSnoc(created, o.value, |old(orders)|);
          gerados := gerados + [resumo];
          created := created + [o.value];
        }
        g := g + 1;
      }
      if failure.Some? {
        RunGroupsStops(results, g);
      } else {
        assert results[..g] == results;
      }
    }

    /** The part of `finalizar_carrinho` after the empty-cart check: the
        grouping, the request and retailer checks, then the group loop. */
    method PlaceOrders(itens: seq<CartLine>, sels: seq<Selection>, wholesalers: map<string, Wholesaler>,
                       retailers: map<string, seq<Address>>, catalog: map<string, Product>, varejistaId: string,
                       now: int)
      returns (gerados: seq<OrderSummary>, failure: Option<ServiceError>, ghost created: seq<Order>)
      requires Valid()
      modifies this
      ensures Valid()
      ensures CheckoutItems(itens, sels, wholesalers, if varejistaId in retailers then Some(retailers[varejistaId]) else None,
                            catalog, varejistaId, now) == Outcome(created, failure)
      ensures orders == old(orders) + created && carts == old(carts)
      ensures gerados == Summaries(created, |old(orders)|)
    {
      var escolhas := SelectionMap(sels);
      var keys, grupos := GroupByWholesaler(itens);
      var i := FirstMissingSelection(keys, escolhas);
      if i < |keys| {
        return [], Some(AddressNotGiven(keys[i])), [];
      }
      if varejistaId !in retailers {
        return [], Some(RetailerNotFound), [];
      }
      var enderecosPorId := AddressMap(retailers[varejistaId]);
      ghost var results := GroupResults(keys, itens, escolhas, wholesalers, enderecosPorId, catalog, varejistaId, now);
      gerados, failure, created := CreateGroupOrders(keys, grupos, escolhas, wholesalers, enderecosPorId, catalog,
                                                      varejistaId, now, results);
    }

    /** `finalizar_carrinho`. `retailers` holds the address list of every
        retailer document. Orders are stored group by group; a failing group
        leaves the earlier groups' orders stored and the cart in place. */
    method FinalizeCart(varejistaId: string, sels: seq<Selection>, wholesalers: map<string, Wholesaler>,
                        retailers: map<string, seq<Address>>, catalog: map<string, Product>, now: int)
      returns (r: Result<seq<OrderSummary>, ServiceError>)
      requires Valid()
      modifies this
      ensures Valid()
      ensures var out := CheckoutRun(if varejistaId in old(carts) then Some(old(carts)[varejistaId]) else None, sels,
                                     wholesalers, if varejistaId in retailers then Some(retailers[varejistaId]) else None,
                                     catalog, varejistaId, now);
        && orders == old(orders) + out.created
        && (out.failure.Some? ==> r == Err(out.failure.value) && carts == old(carts))
        && (out.failure.None? ==> r == Ok(Summaries(out.created, |old(orders)|)) && carts == old(carts) - {varejistaId})
    {
      if varejistaId !in carts || carts[varejistaId].itens == [] {
        return Err(EmptyCart);
      }
      ghost var retailer := if varejistaId in retailers then Some(retailers[varejistaId]) else None;
      assert CheckoutRun(Some(carts[varejistaId]), sels, wholesalers, retailer, catalog, varejistaId, now)
             == CheckoutItems(carts[varejistaId].itens, sels, wholesalers, retailer, catalog, varejistaId, now);
      var gerados, failure, created := PlaceOrders(carts[varejistaId].itens, sels, wholesalers, retailers, catalog,
                                                   varejistaId, now);
      if failure.Some? {
        return Err(failure.value);
      }
      carts := carts - {varejistaId};
      return Ok(gerados);
    }
  }
}
