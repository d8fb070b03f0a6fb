/** The retailer's cart: an ordered list of lines, each for one product of one
    wholesaler, and what adding, updating, removing and duplicating an order
    do to that list and to the cart total. Money is in cents. */
module Carts {
  import opened Common
  import opened Errors
  import opened Catalog
  import opened Orders

  /** One cart line. The price is always the catalogue's, never the caller's. */
  datatype CartLine = CartLine(
    produtoId: string,
    descricaoProduto: string,
    atacadistaId: string,
    quantidade: nat,
    unidadeMedida: string,
    precoUnitario: nat,
    subtotal: nat)

  /** A cart document; at most one per retailer. */
  datatype Cart = Cart(varejistaId: string, itens: seq<CartLine>, valorTotal: nat, atualizadoEm: int)

  /** The sum of the line subtotals. */
  function Sum(items: seq<CartLine>): nat
  {
    if items == [] then 0 else items[0].subtotal + Sum(items[1..])
  }

  lemma {:induction false} SumAppend(a: seq<CartLine>, b: seq<CartLine>)
    ensures Sum(a + b) == Sum(a) + Sum(b)
  {
    if a == [] {
      assert a + b == b;
    } else {
      assert (a + b)[1..] == a[1..] + b;
      SumAppend(a[1..], b);
    }
  }

  /** Replacing one line changes the total by the difference of the subtotals. */
  lemma SumReplace(items: seq<CartLine>, i: nat, line: CartLine)
    requires i < |items|
    ensures Sum(items[i := line]) == Sum(items) - items[i].subtotal + line.subtotal
  {
    assert items == items[..i] + [items[i]] + items[i + 1..];
    assert items[i := line] == items[..i] + [line] + items[i + 1..];
    SumAppend(items[..i] + [items[i]], items[i + 1..]);
    SumAppend(items[..i], [items[i]]);
    SumAppend(items[..i] + [line], items[i + 1..]);
    SumAppend(items[..i], [line]);
  }

  /** Dropping one line lowers the total by its subtotal. */
  lemma SumDrop(items: seq<CartLine>, i: nat)
    requires i < |items|
    ensures Sum(items[..i] + items[i + 1..]) == Sum(items) - items[i].subtotal
  {
    var a, x, b := items[..i], items[i], items[i + 1..];
    assert items == a + ([x] + b);
    assert ([x] + b)[1..] == b;
    assert Sum([x] + b) == x.subtotal + Sum(b);
    SumAppend(a, [x] + b);
    SumAppend(a, b);
  }

  /** The subtotal of `quantidade` units at `preco` cents each. */
  function LineTotal(preco: nat, quantidade: nat): nat
  {
    preco * quantidade
  }

  /** A line as the services store it: a positive quantity and the subtotal of
      that quantity at the line's unit price. */
  predicate PricedLine(l: CartLine)
  {
    l.quantidade >= 1 && l.subtotal == LineTotal(l.precoUnitario, l.quantidade)
  }

  predicate WellPriced(items: seq<CartLine>)
  {
    forall k :: 0 <= k < |items| ==> PricedLine(items[k])
  }

  /** A stored cart: every line priced, the total equal to the subtotals' sum. */
  predicate ConsistentCart(c: Cart)
  {
    WellPriced(c.itens) && c.valorTotal == Sum(c.itens)
  }

  /** A fresh line, its subtotal computed from unit price and quantity. */
  function NewLine(produtoId: string, descricao: string, atacadistaId: string, quantidade: nat,
                   unidade: string, preco: nat): (l: CartLine)
    ensures l.subtotal == preco * quantidade
  {
    CartLine(produtoId, descricao, atacadistaId, quantidade, unidade, preco, LineTotal(preco, quantidade))
  }

  /** The three ways the services match a line: update and remove by product,
      add by product and wholesaler, duplication by product, wholesaler and unit. */
  datatype LineKey =
    | ProductKey(produtoId: string)
    | ProductWholesalerKey(produtoId: string, atacadistaId: string)
    | ProductWholesalerUnitKey(produtoId: string, atacadistaId: string, unidade: string)

  predicate Matches(l: CartLine, key: LineKey)
  {
    match key
    case ProductKey(p) => l.produtoId == p
    case ProductWholesalerKey(p, a) => l.produtoId == p && l.atacadistaId == a
    case ProductWholesalerUnitKey(p, a, u) => l.produtoId == p && l.atacadistaId == a && l.unidadeMedida == u
  }

  /** Index of the first line matching the key, or |items|. */
  function FirstMatch(items: seq<CartLine>, key: LineKey): (i: nat)
    ensures i <= |items|
    ensures forall k :: 0 <= k < i ==> !Matches(items[k], key)
    ensures i < |items| ==> Matches(items[i], key)
  {
    if items == [] then 0
    else if Matches(items[0], key) then 0
    else 1 + FirstMatch(items[1..], key)
  }

  /** The index a forward scan stops at is the first match. */
  lemma FirstMatchIs(items: seq<CartLine>, key: LineKey, i: nat)
    requires i <= |items|
    requires forall k :: 0 <= k < i ==> !Matches(items[k], key)
    requires i < |items| ==> Matches(items[i], key)
    ensures FirstMatch(items, key) == i
  {
  }

  // -------------------------------------------------------------------- add

  /** `CarrinhoItemRequest`; the schema demands a quantity of at least 1. */
  datatype AddRequest = AddRequest(produtoId: string, atacadistaId: string, quantidade: nat, unidadeMedida: string)

  /** The line list after adding: the first line for the same product and
      wholesaler is overwritten, otherwise the new line goes last. */
  function AddedLines(items: seq<CartLine>, req: AddRequest, descricao: string, preco: nat): seq<CartLine>
  {
    var line := NewLine(req.produtoId, descricao, req.atacadistaId, req.quantidade, req.unidadeMedida, preco);
    var i := FirstMatch(items, ProductWholesalerKey(req.produtoId, req.atacadistaId));
    if i < |items| then items[i := line] else items + [line]
  }

  /** The cart an empty or missing cart document starts from. */
  function StoredOrEmpty(carts: map<string, Cart>, varejistaId: string, now: int): Cart
  {
    if varejistaId in carts then carts[varejistaId] else Cart(varejistaId, [], 0, now)
  }

  /** `adicionar_ou_atualizar_item`: product, wholesaler and unit price are
      checked before the cart is touched. */
  function AddItem(carts: map<string, Cart>, catalog: map<string, Product>, varejistaId: string,
                   req: AddRequest, now: int): Result<Cart, ServiceError>
  {
    if req.produtoId !in catalog then Err(ProductNotFound)
    else
      var p := catalog[req.produtoId];
      if p.atacadistaId != Some(req.atacadistaId) then Err(ProductNotFromWholesaler)
      else
        match UnitPrice(p, req.unidadeMedida)
        case Err(e) => Err(e)
        case Ok(preco) =>
          var c := StoredOrEmpty(carts, varejistaId, now);
          var novos := AddedLines(c.itens, req, p.descricao, preco);
          Ok(c.(itens := novos, valorTotal := Sum(novos), atualizadoEm := now))
  }

  /** Add fails exactly on a missing product, a product of another wholesaler
      or a unit without a price, in that order of precedence. */
  lemma AddRejections(carts: map<string, Cart>, catalog: map<string, Product>, varejistaId: string,
                      req: AddRequest, now: int)
    ensures req.produtoId !in catalog ==> AddItem(carts, catalog, varejistaId, req, now) == Err(ProductNotFound)
    ensures req.produtoId in catalog && catalog[req.produtoId].atacadistaId != Some(req.atacadistaId) ==>
              AddItem(carts, catalog, varejistaId, req, now) == Err(ProductNotFromWholesaler)
    ensures req.produtoId in catalog && catalog[req.produtoId].atacadistaId == Some(req.atacadistaId) ==>
              (AddItem(carts, catalog, varejistaId, req, now).Err? <==> UnitPrice(catalog[req.produtoId], req.unidadeMedida).Err?)
    ensures AddItem(carts, catalog, varejistaId, req, now).Err? ==>
              AddItem(carts, catalog, varejistaId, req, now).error in {ProductNotFound, ProductNotFromWholesaler, UnitUnavailable}
  {
  }

  /** Adding a line for a product and wholesaler already in the cart
      overwrites quantity, unit, price, subtotal and description of the first
      such line, leaving every other line as it was. */
  lemma AddOverwritesMatch(items: seq<CartLine>, req: AddRequest, descricao: string, preco: nat)
    requires FirstMatch(items, ProductWholesalerKey(req.produtoId, req.atacadistaId)) < |items|
    ensures var i := FirstMatch(items, ProductWholesalerKey(req.produtoId, req.atacadistaId));
      var r := AddedLines(items, req, descricao, preco);
      && |r| == |items|
      && r[i].produtoId == items[i].produtoId && r[i].atacadistaId == items[i].atacadistaId
      && r[i].quantidade == req.quantidade && r[i].unidadeMedida == req.unidadeMedida
      && r[i].precoUnitario == preco && r[i].subtotal == preco * req.quantidade
      && (forall k :: 0 <= k < |items| && k != i ==> r[k] == items[k])
      && Sum(r) == Sum(items) - items[i].subtotal + preco * req.quantidade
  {
    var i := FirstMatch(items, ProductWholesalerKey(req.produtoId, req.atacadistaId));
    SumReplace(items, i, NewLine(req.produtoId, descricao, req.atacadistaId, req.quantidade, req.unidadeMedida, preco));
  }

  /** Otherwise the new line is appended after the existing ones. */
  lemma AddAppendsNew(items: seq<CartLine>, req: AddRequest, descricao: string, preco: nat)
    requires forall k :: 0 <= k < |items| ==> !Matches(items[k], ProductWholesalerKey(req.produtoId, req.atacadistaId))
    ensures var r := AddedLines(items, req, descricao, preco);
      && |r| == |items| + 1 && r[..|items|] == items
      && r[|items|] == CartLine(req.produtoId, descricao, req.atacadistaId, req.quantidade, req.unidadeMedida,
                                preco, preco * req.quantidade)
      && Sum(r) == Sum(items) + preco * req.quantidade
  {
    var line := NewLine(req.produtoId, descricao, req.atacadistaId, req.quantidade, req.unidadeMedida, preco);
    FirstMatchIs(items, ProductWholesalerKey(req.produtoId, req.atacadistaId), |items|);
    SumAppend(items, [line]);
    assert (items + [line])[..|items|] == items;
  }

  /** Adding the same request twice is adding it once: quantities are
      overwritten, never summed. */
  lemma AddIdempotent(items: seq<CartLine>, req: AddRequest, descricao: string, preco: nat)
    ensures AddedLines(AddedLines(items, req, descricao, preco), req, descricao, preco) ==
            AddedLines(items, req, descricao, preco)
  {
    var key := ProductWholesalerKey(req.produtoId, req.atacadistaId);
    var line := NewLine(req.produtoId, descricao, req.atacadistaId, req.quantidade, req.unidadeMedida, preco);
    var i := FirstMatch(items, key);
    var once := AddedLines(items, req, descricao, preco);
    if i < |items| {
      FirstMatchIs(once, key, i);
    } else {
      FirstMatchIs(once, key, |items|);
    }
  }

  /** Adding keeps every line priced when the quantity meets the schema minimum. */
  lemma AddKeepsLinesPriced(items: seq<CartLine>, req: AddRequest, descricao: string, preco: nat)
    requires WellPriced(items) && req.quantidade >= 1
    ensures WellPriced(AddedLines(items, req, descricao, preco))
  {
  }

  // ----------------------------------------------------------------- update

  /** `CarrinhoItemUpdateRequest`: quantity 0 removes; no unit keeps the old one. */
  datatype UpdateRequest = UpdateRequest(quantidade: nat, unidadeMedida: Option<string>)

  /** `atualizar_item`, acting on the first line of the product. */
  function UpdateItem(carts: map<string, Cart>, catalog: map<string, Product>, varejistaId: string,
                      produtoId: string, req: UpdateRequest, now: int): Result<Cart, ServiceError>
  {
    if varejistaId !in carts then Err(CartNotFound)
    else
      var c := carts[varejistaId];
      var i := FirstMatch(c.itens, ProductKey(produtoId));
      if i == |c.itens| then Err(ItemNotFound)
      else UpdatedCart(c, i, catalog, produtoId, req, now)
  }

  /** What `atualizar_item` does to the cart once the product's first line
      `i` is found: quantity 0 drops it, any other quantity reprices it in the
      sent unit, or in its own when none is sent. */
  function UpdatedCart(c: Cart, i: nat, catalog: map<string, Product>, produtoId: string, req: UpdateRequest,
                       now: int): Result<Cart, ServiceError>
    requires i < |c.itens|
  {
    if req.quantidade == 0 then Ok(DroppedAt(c, i, now))
    else
      var unidade := if Filled(req.unidadeMedida) then req.unidadeMedida.value else c.itens[i].unidadeMedida;
      if produtoId !in catalog then Err(ProductNotFound)
      else RepricedAt(c, i, catalog[produtoId], unidade, req.quantidade, now)
  }

  /** The cart without its line at `i`, re-totalled. */
  function DroppedAt(c: Cart, i: nat, now: int): (r: Cart)
    requires i < |c.itens|
    ensures r.varejistaId == c.varejistaId && r.itens == c.itens[..i] + c.itens[i + 1..]
  {
    var itens := c.itens[..i] + c.itens[i + 1..];
    c.(itens := itens, valorTotal := Sum(itens), atualizadoEm := now)
  }

  /** The cart with its line at `i` set to the quantity and unit and repriced
      from the product; a unit without a price fails. */
  function RepricedAt(c: Cart, i: nat, p: Product, unidade: string, quantidade: nat, now: int): (r: Result<Cart, ServiceError>)
    requires i < |c.itens|
  {
    match UnitPrice(p, unidade)
    case Err(e) => Err(e)
    case Ok(preco) =>
      var line := c.itens[i].(quantidade := quantidade, unidadeMedida := unidade, precoUnitario := preco,
                              subtotal := LineTotal(preco, quantidade), descricaoProduto := p.descricao);
      var itens := c.itens[i := line];
      Ok(c.(itens := itens, valorTotal := Sum(itens), atualizadoEm := now))
  }

  /** A missing cart or a product with no line fails; quantity 0 drops only
      the product's first line and lowers the total by its subtotal, whatever
      unit is sent and whether or not the product is still in the catalogue. */
  lemma UpdateZeroRemovesFirstLine(carts: map<string, Cart>, catalog: map<string, Product>, varejistaId: string,
                                   produtoId: string, req: UpdateRequest, now: int)
    requires req.quantidade == 0
    ensures var r := UpdateItem(carts, catalog, varejistaId, produtoId, req, now);
      && (varejistaId !in carts ==> r == Err(CartNotFound))
      && (varejistaId in carts ==>
            var items := carts[varejistaId].itens;
            var i := FirstMatch(items, ProductKey(produtoId));
            && (i == |items| <==> r == Err(ItemNotFound))
            && (i < |items| ==>
                  && r.Ok? && r.value.itens == items[..i] + items[i + 1..]
                  && |r.value.itens| == |items| - 1
                  && r.value.valorTotal == Sum(items) - items[i].subtotal))
  {
    if varejistaId in carts {
      var items := carts[varejistaId].itens;
      var i := FirstMatch(items, ProductKey(produtoId));
      if i < |items| {
        SumDrop(items, i);
      }
    }
  }

  /** A positive quantity fails on a missing cart, a product with no line,
      a product gone from the catalogue or a unit without a price, in that
      order; otherwise it overwrites the first line of the product, keeping
      its unit when none is sent, repricing it from the catalogue; every
      other line is untouched. */
  lemma UpdateOverwritesLine(carts: map<string, Cart>, catalog: map<string, Product>, varejistaId: string,
                             produtoId: string, req: UpdateRequest, now: int)
    requires req.quantidade >= 1
    ensures var r := UpdateItem(carts, catalog, varejistaId, produtoId, req, now);
      && (varejistaId !in carts ==> r == Err(CartNotFound))
      && (varejistaId in carts ==>
            var items := carts[varejistaId].itens;
            var i := FirstMatch(items, ProductKey(produtoId));
            && (i == |items| ==> r == Err(ItemNotFound))
            && (i < |items| && produtoId !in catalog ==> r == Err(ProductNotFound))
            && (i < |items| && produtoId in catalog ==>
                  var unidade := if Filled(req.unidadeMedida) then req.unidadeMedida.value else items[i].unidadeMedida;
                  && (r.Ok? <==> UnitPrice(catalog[produtoId], unidade).Ok?)
                  && (r.Err? ==> r == Err(UnitUnavailable))))
    ensures var r := UpdateItem(carts, catalog, varejistaId, produtoId, req, now);
      r.Ok? ==>
        var items := carts[varejistaId].itens;
        var i := FirstMatch(items, ProductKey(produtoId));
        var itens := r.value.itens;
        && i < |items| && |itens| == |items|
        && itens[i].produtoId == produtoId && itens[i].atacadistaId == items[i].atacadistaId
        && itens[i].quantidade == req.quantidade
        && (!Filled(req.unidadeMedida) ==> itens[i].unidadeMedida == items[i].unidadeMedida)
        && (Filled(req.unidadeMedida) ==> itens[i].unidadeMedida == req.unidadeMedida.value)
        && UnitPrice(catalog[produtoId], itens[i].unidadeMedida) == Ok(itens[i].precoUnitario)
        && itens[i].subtotal == itens[i].precoUnitario * req.quantidade
        && (forall k :: 0 <= k < |items| && k != i ==> itens[k] == items[k])
        && Sum(itens) == Sum(items) - items[i].subtotal + itens[i].subtotal
  {
    var r := UpdateItem(carts, catalog, varejistaId, produtoId, req, now);
    if r.Ok? {
      var items := carts[varejistaId].itens;
      var i := FirstMatch(items, ProductKey(produtoId));
      SumReplace(items, i, r.value.itens[i]);
    }
  }

  /** Updating keeps every line priced. */
  lemma UpdateKeepsLinesPriced(carts: map<string, Cart>, catalog: map<string, Product>, varejistaId: string,
                               produtoId: string, req: UpdateRequest, now: int)
    requires varejistaId in carts && WellPriced(carts[varejistaId].itens)
    requires UpdateItem(carts, catalog, varejistaId, produtoId, req, now).Ok?
    ensures WellPriced(UpdateItem(carts, catalog, varejistaId, produtoId, req, now).value.itens)
  {
    var items := carts[varejistaId].itens;
    var i := FirstMatch(items, ProductKey(produtoId));
    if req.quantidade == 0 {
      var r := items[..i] + items[i + 1..];
      forall k | 0 <= k < |r| ensures PricedLine(r[k]) {
        if k < i {
          assert r[k] == items[k];
        } else {
          assert r[k] == items[k + 1];
        }
      }
    }
  }

  // ----------------------------------------------------------------- remove

  /** The lines of other products, in order (the list comprehension). */
  function WithoutProduct(items: seq<CartLine>, produtoId: string): (r: seq<CartLine>)
    ensures |r| <= |items|
    ensures forall l :: l in r ==> l in items && l.produtoId != produtoId
    ensures forall k :: 0 <= k < |items| && items[k].produtoId != produtoId ==> items[k] in r
  {
    if items == [] then []
    else
      var rest := WithoutProduct(items[1..], produtoId);
      assert forall k :: 1 <= k < |items| ==> items[k] == items[1..][k - 1];
      if items[0].produtoId != produtoId then [items[0]] + rest else rest
  }

  /** The filter keeps the surviving lines in their order and multiplicity:
      appending a line appends it to the result unless it is the product. */
  lemma {:induction false} WithoutProductSnoc(items: seq<CartLine>, x: CartLine, produtoId: string)
    ensures WithoutProduct(items + [x], produtoId) ==
              WithoutProduct(items, produtoId) + (if x.produtoId != produtoId then [x] else [])
  {
    if items != [] {
      assert (items + [x])[1..] == items[1..] + [x];
      WithoutProductSnoc(items[1..], x, produtoId);
    }
  }

  /** Nothing is filtered out exactly when no line has the product. */
  lemma {:induction false} WithoutProductShorter(items: seq<CartLine>, produtoId: string)
    ensures |WithoutProduct(items, produtoId)| == |items| <==> FirstMatch(items, ProductKey(produtoId)) == |items|
  {
    if items != [] {
      WithoutProductShorter(items[1..], produtoId);
    }
  }

  /** The filtered total is the total less the removed lines' subtotals. */
  lemma {:induction false} WithoutProductSum(items: seq<CartLine>, produtoId: string)
    ensures Sum(WithoutProduct(items, produtoId)) <= Sum(items)
    ensures Sum(WithoutProduct(items, produtoId)) == Sum(items) <==>
              forall k :: 0 <= k < |items| && items[k].produtoId == produtoId ==> items[k].subtotal == 0
  {
    if items != [] {
      var rest := WithoutProduct(items[1..], produtoId);
      WithoutProductSum(items[1..], produtoId);
      assert forall k :: 1 <= k < |items| ==> items[k] == items[1..][k - 1];
      if items[0].produtoId != produtoId {
        assert ([items[0]] + rest)[1..] == rest;
        assert Sum(WithoutProduct(items, produtoId)) == items[0].subtotal + Sum(rest);
      } else {
        assert Sum(WithoutProduct(items, produtoId)) == Sum(rest);
      }
    }
  }

  /** `remover_item`: Ok(None) is the cart deleted because no line was left. */
  function RemoveItem(carts: map<string, Cart>, varejistaId: string, produtoId: string, now: int)
    : Result<Option<Cart>, ServiceError>
  {
    if varejistaId !in carts then Err(CartNotFound)
    else
      var c := carts[varejistaId];
      var r := WithoutProduct(c.itens, produtoId);
      if |r| == |c.itens| then Err(ItemNotFound)
      else if r == [] then Ok(None)
      else Ok(Some(c.(itens := r, valorTotal := Sum(r), atualizadoEm := now)))
  }

  /** Removal fails exactly when the cart or the product's lines are missing;
      otherwise every line of the product goes and the others stay, and the
      cart is deleted exactly when the product was all it held. */
  lemma RemoveDropsEveryLine(carts: map<string, Cart>, varejistaId: string, produtoId: string, now: int)
    ensures var r := RemoveItem(carts, varejistaId, produtoId, now);
      && (varejistaId !in carts ==> r == Err(CartNotFound))
      && (varejistaId in carts ==>
            var items := carts[varejistaId].itens;
            && (r == Err(ItemNotFound) <==> forall k :: 0 <= k < |items| ==> items[k].produtoId != produtoId)
            && (r.Ok? <==> exists k :: 0 <= k < |items| && items[k].produtoId == produtoId)
            && (r.Ok? ==>
                  && (r.value.None? <==> forall k :: 0 <= k < |items| ==> items[k].produtoId == produtoId)
                  && (r.value.Some? ==>
                        && (forall l :: l in r.value.value.itens ==> l in items && l.produtoId != produtoId)
                        && (forall k :: 0 <= k < |items| && items[k].produtoId != produtoId ==> items[k] in r.value.value.itens)
                        && r.value.value.valorTotal <= Sum(items))))
  {
    if varejistaId in carts {
      var items := carts[varejistaId].itens;
      WithoutProductShorter(items, produtoId);
      WithoutProductSum(items, produtoId);
      var w := WithoutProduct(items, produtoId);
      if w == [] {
        assert forall k :: 0 <= k < |items| ==> items[k].produtoId == produtoId;
      } else {
        assert w[0] in items;
      }
    }
  }

  /** Filtering keeps every remaining line priced. */
  lemma WithoutProductPriced(items: seq<CartLine>, produtoId: string)
    requires WellPriced(items)
    ensures WellPriced(WithoutProduct(items, produtoId))
  {
    var r := WithoutProduct(items, produtoId);
    forall k | 0 <= k < |r| ensures PricedLine(r[k]) {
      assert r[k] in items;
    }
  }

  // -------------------------------------------------------------- duplicate

  /** What `duplicar_pedido` does with one order item: items with an empty
      product id, an empty unit or a non-positive quantity, and items whose
      product is gone, are skipped; a unit without a price aborts everything;
      otherwise the quantity is added to the first line with the same product,
      wholesaler and unit (repriced), or a new line is appended. */
  function MergeOrderItem(acc: seq<CartLine>, atacadistaId: string, it: OrderItem, catalog: map<string, Product>)
    : Result<seq<CartLine>, ServiceError>
  {
    if it.produtoId == "" || it.unidade == "" || it.quantidade <= 0 then Ok(acc)
    else if it.produtoId !in catalog then Ok(acc)
    else
      var p := catalog[it.produtoId];
      match UnitPrice(p, it.unidade)
      case Err(e) => Err(e)
      case Ok(preco) =>
        var i := FirstMatch(acc, ProductWholesalerUnitKey(it.produtoId, atacadistaId, it.unidade));
        if i < |acc| then
          var q := acc[i].quantidade + it.quantidade;
          Ok(acc[i := acc[i].(quantidade := q, precoUnitario := preco, subtotal := LineTotal(preco, q), descricaoProduto := p.descricao)])
        else
          Ok(acc + [NewLine(it.produtoId, p.descricao, atacadistaId, it.quantidade, it.unidade, preco)])
  }

  /** The order's items merged one after another; the first failure stops it. */
  function MergeOrder(acc: seq<CartLine>, atacadistaId: string, its: seq<OrderItem>, catalog: map<string, Product>)
    : Result<seq<CartLine>, ServiceError>
  {
    if its == [] then Ok(acc)
    else
      match MergeOrder(acc, atacadistaId, its[..|its| - 1], catalog)
      case Err(e) => Err(e)
      case Ok(prev) => MergeOrderItem(prev, atacadistaId, its[|its| - 1], catalog)
  }

  lemma MergeOrderSnoc(acc: seq<CartLine>, atacadistaId: string, its: seq<OrderItem>, it: OrderItem,
                       catalog: map<string, Product>)
    ensures MergeOrder(acc, atacadistaId, its + [it], catalog) ==
              match MergeOrder(acc, atacadistaId, its, catalog)
              case Err(e) => Err(e)
              case Ok(prev) => MergeOrderItem(prev, atacadistaId, it, catalog)
  {
    assert (its + [it])[..|its + [it]| - 1] == its;
  }

  /** An order item that duplication cannot use leaves the lines as they are. */
  lemma MergeSkipsUnusable(acc: seq<CartLine>, atacadistaId: string, it: OrderItem, catalog: map<string, Product>)
    requires it.produtoId == "" || it.unidade == "" || it.quantidade <= 0 || it.produtoId !in catalog
    ensures MergeOrderItem(acc, atacadistaId, it, catalog) == Ok(acc)
  {
  }

  /** A usable order item whose unit has no price aborts the duplication. */
  lemma MergeAbortsOnMissingPrice(acc: seq<CartLine>, atacadistaId: string, it: OrderItem, catalog: map<string, Product>)
    requires it.produtoId != "" && it.unidade != "" && it.quantidade > 0 && it.produtoId in catalog
    ensures MergeOrderItem(acc, atacadistaId, it, catalog).Err? <==> UnitPrice(catalog[it.produtoId], it.unidade).Err?
    ensures MergeOrderItem(acc, atacadistaId, it, catalog).Err? ==>
              MergeOrderItem(acc, atacadistaId, it, catalog) == Err(UnitUnavailable)
  {
  }

  /** A usable item for a line already in the cart (same product, wholesaler
      and unit) adds its quantity to that line, repricing the sum; other
      lines stay; the total grows by the new subtotal less the old one. */
  lemma MergeSumsQuantities(acc: seq<CartLine>, atacadistaId: string, it: OrderItem, catalog: map<string, Product>)
    requires it.produtoId != "" && it.unidade != "" && it.quantidade > 0 && it.produtoId in catalog
    requires UnitPrice(catalog[it.produtoId], it.unidade).Ok?
    requires FirstMatch(acc, ProductWholesalerUnitKey(it.produtoId, atacadistaId, it.unidade)) < |acc|
    ensures var i := FirstMatch(acc, ProductWholesalerUnitKey(it.produtoId, atacadistaId, it.unidade));
      var preco := UnitPrice(catalog[it.produtoId], it.unidade).value;
      var r := MergeOrderItem(acc, atacadistaId, it, catalog);
      && r.Ok? && |r.value| == |acc|
      && r.value[i].quantidade == acc[i].quantidade + it.quantidade
      && r.value[i].precoUnitario == preco
      && r.value[i].subtotal == preco * (acc[i].quantidade + it.quantidade)
      && (forall k :: 0 <= k < |acc| && k != i ==> r.value[k] == acc[k])
      && Sum(r.value) == Sum(acc) - acc[i].subtotal + r.value[i].subtotal
  {
    var i := FirstMatch(acc, ProductWholesalerUnitKey(it.produtoId, atacadistaId, it.unidade));
    SumReplace(acc, i, MergeOrderItem(acc, atacadistaId, it, catalog).value[i]);
  }

  /** A usable item with no matching line is appended as a new line. */
  lemma MergeAppendsNew(acc: seq<CartLine>, atacadistaId: string, it: OrderItem, catalog: map<string, Product>)
    requires it.produtoId != "" && it.unidade != "" && it.quantidade > 0 && it.produtoId in catalog
    requires UnitPrice(catalog[it.produtoId], it.unidade).Ok?
    requires forall k :: 0 <= k < |acc| ==> !Matches(acc[k], ProductWholesalerUnitKey(it.produtoId, atacadistaId, it.unidade))
    ensures var preco := UnitPrice(catalog[it.produtoId], it.unidade).value;
      var r := MergeOrderItem(acc, atacadistaId, it, catalog);
      && r.Ok? && |r.value| == |acc| + 1 && r.value[..|acc|] == acc
      && r.value[|acc|].produtoId == it.produtoId && r.value[|acc|].atacadistaId == atacadistaId
      && r.value[|acc|].unidadeMedida == it.unidade && r.value[|acc|].quantidade == it.quantidade
      && r.value[|acc|].subtotal == preco * it.quantidade
      && Sum(r.value) == Sum(acc) + preco * it.quantidade
  {
    var key := ProductWholesalerUnitKey(it.produtoId, atacadistaId, it.unidade);
    FirstMatchIs(acc, key, |acc|);
    var r := MergeOrderItem(acc, atacadistaId, it, catalog).value;
    assert r == acc + [r[|acc|]];
    SumAppend(acc, [r[|acc|]]);
  }

  /** Once an item fails, the items after it change nothing: the
      duplication as a whole fails with that item's error. */
  lemma {:induction false} MergeOrderStopsAtFailure(acc: seq<CartLine>, atacadistaId: string, its: seq<OrderItem>,
                                                    j: nat, catalog: map<string, Product>)
    requires j <= |its| && MergeOrder(acc, atacadistaId, its[..j], catalog).Err?
    ensures MergeOrder(acc, atacadistaId, its, catalog) == MergeOrder(acc, atacadistaId, its[..j], catalog)
  {
    if j < |its| {
      var p := its[..|its| - 1];
      assert p[..j] == its[..j];
      MergeOrderStopsAtFailure(acc, atacadistaId, p, j, catalog);
    } else {
      assert its[..j] == its;
    }
  }

  /** Duplication keeps every line priced. */
  lemma {:induction false} MergeOrderPriced(acc: seq<CartLine>, atacadistaId: string, its: seq<OrderItem>,
                                            catalog: map<string, Product>)
    requires WellPriced(acc)
    ensures MergeOrder(acc, atacadistaId, its, catalog).Ok? ==> WellPriced(MergeOrder(acc, atacadistaId, its, catalog).value)
  {
    if its != [] {
      MergeOrderPriced(acc, atacadistaId, its[..|its| - 1], catalog);
    }
  }

  /** `duplicar_pedido`: only an order of this retailer can be duplicated. */
  function DuplicateOrder(carts: map<string, Cart>, orders: seq<Order>, catalog: map<string, Product>,
                          varejistaId: string, pedidoId: nat, now: int): Result<Cart, ServiceError>
  {
    if pedidoId >= |orders| || orders[pedidoId].varejistaId != varejistaId then Err(OrderNotFound)
    else
      var c := StoredOrEmpty(carts, varejistaId, now);
      var o := orders[pedidoId];
      match MergeOrder(c.itens, o.atacadistaId, o.itens, catalog)
      case Err(e) => Err(e)
      case Ok(r) => Ok(c.(itens := r, valorTotal := Sum(r), atualizadoEm := now))
  }

  /** Another retailer's order, or an id no order has, is not found. */
  lemma DuplicateOnlyOwnOrders(carts: map<string, Cart>, orders: seq<Order>, catalog: map<string, Product>,
                               varejistaId: string, pedidoId: nat, now: int)
    ensures DuplicateOrder(carts, orders, catalog, varejistaId, pedidoId, now) == Err(OrderNotFound) <==>
              pedidoId >= |orders| || orders[pedidoId].varejistaId != varejistaId
  {
    if pedidoId < |orders| && orders[pedidoId].varejistaId == varejistaId {
      var c := StoredOrEmpty(carts, varejistaId, now);
      var o := orders[pedidoId];
      MergeOrderErrors(c.itens, o.atacadistaId, o.itens, catalog);
    }
  }

  /** The only failure merging can produce is an unpriced unit. */
  lemma {:induction false} MergeOrderErrors(acc: seq<CartLine>, atacadistaId: string, its: seq<OrderItem>,
                                            catalog: map<string, Product>)
    ensures MergeOrder(acc, atacadistaId, its, catalog).Err? ==>
              MergeOrder(acc, atacadistaId, its, catalog) == Err(UnitUnavailable)
  {
    if its != [] {
      MergeOrderErrors(acc, atacadistaId, its[..|its| - 1], catalog);
    }
  }
}
