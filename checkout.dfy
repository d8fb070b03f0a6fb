/** Checkout (`finalizar_carrinho`): the cart's lines are grouped by
    wholesaler in order of first appearance, each group is checked and turned
    into one pending order, and the cart is deleted once every group passed. */
module Checkout {
  import opened Common
  import opened Errors
  import opened Text
  import opened Catalog
  import opened Wholesalers
  import opened Addresses
  import opened Orders
  import opened Carts

  /** One entry of the request: the delivery address and, optionally, the
      payment term chosen for a wholesaler. */
  datatype Selection = Selection(atacadistaId: string, enderecoId: string, condicaoPagamento: Option<string>)

  /** The request entries by wholesaler; a later entry replaces an earlier one. */
  function SelectionMap(sels: seq<Selection>): (m: map<string, Selection>)
    ensures forall w :: w in m <==> exists k :: 0 <= k < |sels| && sels[k].atacadistaId == w
    ensures forall w :: w in m ==> m[w].atacadistaId == w && m[w] in sels
  {
    if sels == [] then map[]
    else
      var p := sels[..|sels| - 1];
      var last := sels[|sels| - 1];
      var m := SelectionMap(p);
      assert forall k :: 0 <= k < |p| ==> sels[k] == p[k];
      m[last.atacadistaId := last]
  }

  /** The last entry for a wholesaler is the one that counts. */
  lemma {:induction false} SelectionMapLastWins(sels: seq<Selection>, k: nat)
    requires k < |sels|
    requires forall j :: k < j < |sels| ==> sels[j].atacadistaId != sels[k].atacadistaId
    ensures SelectionMap(sels)[sels[k].atacadistaId] == sels[k]
  {
    if k < |sels| - 1 {
      var p := sels[..|sels| - 1];
      assert p[k] == sels[k];
      SelectionMapLastWins(p, k);
    }
  }

  /** The retailer's addresses by id; a later address replaces an earlier one. */
  function AddressMap(addrs: seq<Address>): (m: map<string, Address>)
    ensures forall id :: id in m <==> HasId(addrs, id)
    ensures forall id :: id in m ==> m[id].id == id && m[id] in addrs
  {
    if addrs == [] then map[]
    else
      var p := addrs[..|addrs| - 1];
      var last := addrs[|addrs| - 1];
      var m := AddressMap(p);
      assert forall k :: 0 <= k < |p| ==> addrs[k] == p[k];
      assert forall id :: HasId(p, id) ==> HasId(addrs, id);
      m[last.id := last]
  }

  /** The wholesaler of every line, in cart order. */
  function WholesalerIds(items: seq<CartLine>): (r: seq<string>)
    ensures |r| == |items|
    ensures forall k :: 0 <= k < |items| ==> r[k] == items[k].atacadistaId
  {
    if items == [] then [] else WholesalerIds(items[..|items| - 1]) + [items[|items| - 1].atacadistaId]
  }

  /** The wholesalers of the cart, each once, in order of first appearance:
      the keys of the grouping dictionary. */
  function GroupKeys(items: seq<CartLine>): seq<string>
  {
    Distinct(WholesalerIds(items))
  }

  /** The lines of one wholesaler, in cart order: one group. */
  function LinesOf(items: seq<CartLine>, w: string): (r: seq<CartLine>)
    ensures |r| <= |items|
    ensures forall l :: l in r ==> l in items && l.atacadistaId == w
  {
    if items == [] then []
    else
      var p := items[..|items| - 1];
      var last := items[|items| - 1];
      assert forall l :: l in p ==> l in items;
      LinesOf(p, w) + (if last.atacadistaId == w then [last] else [])
  }

  lemma LinesOfSnoc(items: seq<CartLine>, x: CartLine, w: string)
    ensures LinesOf(items + [x], w) == LinesOf(items, w) + (if x.atacadistaId == w then [x] else [])
  {
    assert (items + [x])[..|items + [x]| - 1] == items;
  }

  lemma WholesalerIdsSnoc(items: seq<CartLine>, x: CartLine)
    ensures WholesalerIds(items + [x]) == WholesalerIds(items) + [x.atacadistaId]
  {
    assert (items + [x])[..|items + [x]| - 1] == items;
  }

  /** A wholesaler with no line in the cart has an empty group. */
  lemma {:induction false} LinesOfAbsent(items: seq<CartLine>, w: string)
    requires w !in WholesalerIds(items)
    ensures LinesOf(items, w) == []
  {
    if items != [] {
      var p := items[..|items| - 1];
      WholesalerIdsSnoc(p, items[|items| - 1]);
      assert items == p + [items[|items| - 1]];
      LinesOfAbsent(p, w);
    }
  }

  /** A further line adds its wholesaler at the end of the keys when it is
      new, and leaves them alone otherwise. */
  lemma GroupKeysSnoc(items: seq<CartLine>, x: CartLine)
    ensures GroupKeys(items + [x]) ==
              if x.atacadistaId in GroupKeys(items) then GroupKeys(items) else GroupKeys(items) + [x.atacadistaId]
  {
    WholesalerIdsSnoc(items, x);
    DistinctSnoc(WholesalerIds(items), x.atacadistaId);
  }

  /** The grouping dictionary of the cart, line by line: each line joins its
      wholesaler's group, which is opened when the wholesaler is new. */
  function Grouping(items: seq<CartLine>): map<string, seq<CartLine>>
  {
    if items == [] then map[]
    else
      var g := Grouping(items[..|items| - 1]);
      var x := items[|items| - 1];
      if x.atacadistaId in g then g[x.atacadistaId := g[x.atacadistaId] + [x]] else g[x.atacadistaId := [x]]
  }

  lemma GroupingSnoc(items: seq<CartLine>, x: CartLine)
    ensures Grouping(items + [x]) ==
              var g := Grouping(items);
              if x.atacadistaId in g then g[x.atacadistaId := g[x.atacadistaId] + [x]] else g[x.atacadistaId := [x]]
  {
    assert (items + [x])[..|items + [x]| - 1] == items;
  }

  /** The dictionary has exactly the cart's wholesalers as keys... */
  lemma {:induction false} GroupingKeys(items: seq<CartLine>)
    ensures forall w :: w in Grouping(items) <==> w in WholesalerIds(items)
  {
    if items != [] {
      var p, x := items[..|items| - 1], items[|items| - 1];
      GroupingKeys(p);
      assert items == p + [x];
      WholesalerIdsSnoc(p, x);
    }
  }

  /** ... and each key holds that wholesaler's lines, in cart order. */
  lemma {:induction false} GroupingLines(items: seq<CartLine>, w: string)
    requires w in Grouping(items)
    ensures Grouping(items)[w] == LinesOf(items, w)
  {
    var p, x := items[..|items| - 1], items[|items| - 1];
    assert items == p + [x];
    LinesOfSnoc(p, x, w);
    if w in Grouping(p) {
      GroupingLines(p, w);
    } else {
      GroupingKeys(p);
      LinesOfAbsent(p, w);
      assert [] + [x] == [x];
    }
  }

  /** The term a group is checked against: the chosen label or "A VISTA",
      stripped but not upper-cased. */
  function ChosenTerm(sel: Selection): string
  {
    Strip(if Filled(sel.condicaoPagamento) then sel.condicaoPagamento.value else AVista)
  }

  /** A retailer that chooses no term gets "A VISTA", which every wholesaler offers. */
  lemma OmittedTermAccepted(sel: Selection, w: Wholesaler)
    requires !Filled(sel.condicaoPagamento)
    ensures ChosenTerm(sel) == AVista
    ensures ChosenTerm(sel) in OfferedTerms(w.condicoesPagamento)
  {
    AVistaCanonical();
    OfferedTermsWellFormed(w.condicoesPagamento);
  }

  /** `_get_descricao_produto`: the catalogue description, "" once the product is gone. */
  function Description(catalog: map<string, Product>, produtoId: string): string
  {
    if produtoId in catalog then catalog[produtoId].descricao else ""
  }

  /** The order items of a group, one per line. */
  function OrderLines(lines: seq<CartLine>, catalog: map<string, Product>): (r: seq<OrderItem>)
    ensures |r| == |lines|
    ensures forall k :: 0 <= k < |lines| ==>
              r[k] == OrderItem(lines[k].produtoId, Description(catalog, lines[k].produtoId), lines[k].unidadeMedida,
                                lines[k].quantidade, lines[k].precoUnitario, lines[k].subtotal)
  {
    seq(|lines|, k requires 0 <= k < |lines| =>
      OrderItem(lines[k].produtoId, Description(catalog, lines[k].produtoId), lines[k].unidadeMedida,
                lines[k].quantidade, lines[k].precoUnitario, lines[k].subtotal))
  }

  /** An order's item totals add up to the group total it records. */
  lemma {:induction false} OrderLinesTotal(lines: seq<CartLine>, catalog: map<string, Product>)
    ensures ItemsTotal(OrderLines(lines, catalog)) == Sum(lines)
  {
    if lines != [] {
      OrderLinesTotal(lines[1..], catalog);
      assert OrderLines(lines, catalog)[1..] == OrderLines(lines[1..], catalog);
    }
  }

  /** The name a minimum-order rejection reports: the display name, else the id. */
  function NameOrId(a: Wholesaler, w: string): string
  {
    var n := DisplayName(a);
    if Filled(n) then n.value else w
  }

  /** One group, checked in the order the service checks: the wholesaler
      exists, the term is offered, the group total reaches the minimum, the
      chosen address exists; then its pending order. */
  function GroupOrder(w: string, lines: seq<CartLine>, sel: Selection, wholesalers: map<string, Wholesaler>,
                      addrs: map<string, Address>, catalog: map<string, Product>, varejistaId: string, now: int)
    : Result<Order, ServiceError>
  {
    if w !in wholesalers then Err(WholesalerNotFound(w))
    else
      var a := wholesalers[w];
      var termo := ChosenTerm(sel);
      if termo !in OfferedTerms(a.condicoesPagamento) then Err(InvalidPaymentTerm(w))
      else PlacedOrder(w, a, termo, lines, sel, addrs, catalog, varejistaId, now)
  }

  /** The checks of a group after its term was accepted: the minimum order
      value, then the delivery address; then the pending order itself. */
  function PlacedOrder(w: string, a: Wholesaler, termo: string, lines: seq<CartLine>, sel: Selection,
                       addrs: map<string, Address>, catalog: map<string, Product>, varejistaId: string, now: int)
    : Result<Order, ServiceError>
  {
    var total := Sum(lines);
    var minimo := MinimumOrder(a);
    if total < minimo then
      Err(MinOrderNotReached(MinimumOrderDetail(w, NameOrId(a, w), total, minimo, minimo - total)))
    else if sel.enderecoId !in addrs then Err(DeliveryAddressNotFound(w))
    else Ok(Order(w, varejistaId, termo, addrs[sel.enderecoId], OrderLines(lines, catalog), total, Pendente, now))
  }

  /** What a group yields: the first check that failed, a shortfall carrying
      minimum less total; or, once all four pass, a pending order of the
      group's wholesaler and retailer, with an offered term, the chosen
      address, one item per line, and the group total, which reaches the
      minimum. */
  lemma GroupOrderOutcome(w: string, lines: seq<CartLine>, sel: Selection, wholesalers: map<string, Wholesaler>,
                          addrs: map<string, Address>, catalog: map<string, Product>, varejistaId: string, now: int)
    ensures var r := GroupOrder(w, lines, sel, wholesalers, addrs, catalog, varejistaId, now);
      && (w !in wholesalers ==> r == Err(WholesalerNotFound(w)))
      && (w in wholesalers && ChosenTerm(sel) !in OfferedTerms(wholesalers[w].condicoesPagamento) ==>
            r == Err(InvalidPaymentTerm(w)))
      && (w in wholesalers && ChosenTerm(sel) in OfferedTerms(wholesalers[w].condicoesPagamento) &&
          Sum(lines) < MinimumOrder(wholesalers[w]) ==>
            r.Err? && r.error.MinOrderNotReached? &&
            r.error.detail.faltante == MinimumOrder(wholesalers[w]) - Sum(lines) > 0 &&
            r.error.detail.valorTotalAtual == Sum(lines))
      && (w in wholesalers && ChosenTerm(sel) in OfferedTerms(wholesalers[w].condicoesPagamento) &&
          Sum(lines) >= MinimumOrder(wholesalers[w]) ==>
            && (sel.enderecoId !in addrs ==> r == Err(DeliveryAddressNotFound(w)))
            && (sel.enderecoId in addrs ==> r.Ok?))
      && (r.Ok? ==>
            && w in wholesalers
            && r.value.status == Pendente
            && r.value.atacadistaId == w && r.value.varejistaId == varejistaId
            && r.value.condicaoPagamento in OfferedTerms(wholesalers[w].condicoesPagamento)
            && r.value.valorTotal == Sum(lines) >= MinimumOrder(wholesalers[w])
            && ItemsTotal(r.value.itens) == r.value.valorTotal
            && |r.value.itens| == |lines|
            && sel.enderecoId in addrs && r.value.enderecoEntrega == addrs[sel.enderecoId])
      && (r.Err? ==> r.error.WholesalerNotFound? || r.error.InvalidPaymentTerm? ||
                     r.error.MinOrderNotReached? || r.error.DeliveryAddressNotFound?)
  {
    OrderLinesTotal(lines, catalog);
  }

  /** A group's order is filed under the group's wholesaler, and its total
      is the sum of its item totals, as every stored order's is. */
  lemma GroupOrderStorable(w: string, lines: seq<CartLine>, sel: Selection, wholesalers: map<string, Wholesaler>,
                           addrs: map<string, Address>, catalog: map<string, Product>, varejistaId: string, now: int)
    requires GroupOrder(w, lines, sel, wholesalers, addrs, catalog, varejistaId, now).Ok?
    ensures var o := GroupOrder(w, lines, sel, wholesalers, addrs, catalog, varejistaId, now).value;
      o.atacadistaId == w && ItemsTotal(o.itens) == o.valorTotal
  {
    OrderLinesTotal(lines, catalog);
  }

  /** The orders created so far and the failure that stopped the loop, if any. */
  datatype Outcome = Outcome(created: seq<Order>, failure: Option<ServiceError>)

  /** What each group would yield, in group order. */
  function GroupResults(keys: seq<string>, items: seq<CartLine>, choices: map<string, Selection>,
                        wholesalers: map<string, Wholesaler>, addrs: map<string, Address>,
                        catalog: map<string, Product>, varejistaId: string, now: int)
    : (r: seq<Result<Order, ServiceError>>)
    requires forall k :: 0 <= k < |keys| ==> keys[k] in choices
    ensures |r| == |keys|
  {
    seq(|keys|, k requires 0 <= k < |keys| =>
      GroupOrder(keys[k], LinesOf(items, keys[k]), choices[keys[k]], wholesalers, addrs, catalog, varejistaId, now))
  }

  /** `results` holds, group by group, what the order of each wholesaler's
      group yields. */
  ghost predicate GroupsYield(results: seq<Result<Order, ServiceError>>, keys: seq<string>,
                              groups: map<string, seq<CartLine>>, choices: map<string, Selection>,
                              wholesalers: map<string, Wholesaler>, addrs: map<string, Address>,
                              catalog: map<string, Product>, varejistaId: string, now: int)
  {
    && |results| == |keys|
    && (forall k {:trigger keys[k]} :: 0 <= k < |keys| ==> keys[k] in choices && keys[k] in groups)
    && (forall k {:trigger keys[k]} :: 0 <= k < |keys| ==>
          results[k] == GroupOrder(keys[k], groups[keys[k]], choices[keys[k]], wholesalers, addrs, catalog,
                                   varejistaId, now))
  }

  /** The group loop: orders are created one group at a time until a group
      fails; the orders of earlier groups stay created. */
  function RunGroups(results: seq<Result<Order, ServiceError>>): Outcome
  {
    if results == [] then Outcome([], None)
    else
      var prev := RunGroups(results[..|results| - 1]);
      if prev.failure.Some? then prev
      else
        match results[|results| - 1]
        case Err(e) => Outcome(prev.created, Some(e))
        case Ok(o) => Outcome(prev.created + [o], None)
  }

  lemma RunGroupsSnoc(results: seq<Result<Order, ServiceError>>, x: Result<Order, ServiceError>)
    ensures RunGroups(results + [x]) ==
              (var prev := RunGroups(results);
               if prev.failure.Some? then prev
               else match x
                    case Err(e) => Outcome(prev.created, Some(e))
                    case Ok(o) => Outcome(prev.created + [o], None))
  {
    assert (results + [x])[..|results + [x]| - 1] == results;
  }

  /** A failure in the first `j` groups is the failure of the whole loop. */
  lemma {:induction false} RunGroupsStops(results: seq<Result<Order, ServiceError>>, j: nat)
    requires j <= |results| && RunGroups(results[..j]).failure.Some?
    ensures RunGroups(results) == RunGroups(results[..j])
  {
    if j < |results| {
      var p := results[..|results| - 1];
      assert p[..j] == results[..j];
      RunGroupsStops(p, j);
    } else {
      assert results[..j] == results;
    }
  }

  /** The created orders are the orders of the first groups, in group order;
      a failure is the failure of the first group that failed, and no group
      after it is tried. */
  lemma {:induction false} RunGroupsShape(results: seq<Result<Order, ServiceError>>)
    ensures var out := RunGroups(results);
      && |out.created| <= |results|
      && (forall k :: 0 <= k < |out.created| ==> results[k] == Ok(out.created[k]))
      && (out.failure.None? ==> |out.created| == |results|)
      && (out.failure.Some? ==> |out.created| < |results| && results[|out.created|] == Err(out.failure.value))
  {
    if results != [] {
      var p := results[..|results| - 1];
      RunGroupsShape(p);
      assert forall k :: 0 <= k < |p| ==> results[k] == p[k];
    }
  }

  /** Index of the first wholesaler of the cart with no request entry, or |keys|. */
  function FirstUnselected(keys: seq<string>, choices: map<string, Selection>): (i: nat)
    ensures i <= |keys|
    ensures forall k :: 0 <= k < i ==> keys[k] in choices
    ensures i < |keys| ==> keys[i] !in choices
  {
    if keys == [] then 0
    else if keys[0] !in choices then 0
    else 1 + FirstUnselected(keys[1..], choices)
  }

  /** The index a forward scan stops at is the first unselected wholesaler. */
  lemma FirstUnselectedIs(keys: seq<string>, choices: map<string, Selection>, i: nat)
    requires i <= |keys|
    requires forall k :: 0 <= k < i ==> keys[k] in choices
    requires i < |keys| ==> keys[i] !in choices
    ensures FirstUnselected(keys, choices) == i
  {
  }

  /** The whole of `finalizar_carrinho` on values: the cart (None when the
      retailer has none), the request, the wholesalers, the retailer's
      addresses (None when the retailer document is missing). */
  function CheckoutRun(cart: Option<Cart>, sels: seq<Selection>, wholesalers: map<string, Wholesaler>,
                       retailer: Option<seq<Address>>, catalog: map<string, Product>, varejistaId: string,
                       now: int): Outcome
  {
    if cart.None? || cart.value.itens == [] then Outcome([], Some(EmptyCart))
    else CheckoutItems(cart.value.itens, sels, wholesalers, retailer, catalog, varejistaId, now)
  }

  /** Checkout of a non-empty line list: every wholesaler needs a request
      entry, the retailer must exist, then the groups run. */
  function CheckoutItems(items: seq<CartLine>, sels: seq<Selection>, wholesalers: map<string, Wholesaler>,
                         retailer: Option<seq<Address>>, catalog: map<string, Product>, varejistaId: string,
                         now: int): Outcome
  {
    var keys := GroupKeys(items);
    var choices := SelectionMap(sels);
    var i := FirstUnselected(keys, choices);
    if i < |keys| then Outcome([], Some(AddressNotGiven(keys[i])))
    else if retailer.None? then Outcome([], Some(RetailerNotFound))
    else RunGroups(GroupResults(keys, items, choices, wholesalers, AddressMap(retailer.value), catalog, varejistaId, now))
  }

  /** Checkout creates no order when the cart is missing or empty, when a
      wholesaler of the cart has no request entry, or when the retailer is
      missing; these are checked in that order. */
  lemma CheckoutEarlyFailures(cart: Option<Cart>, sels: seq<Selection>, wholesalers: map<string, Wholesaler>,
                              retailer: Option<seq<Address>>, catalog: map<string, Product>, varejistaId: string,
                              now: int)
    ensures var out := CheckoutRun(cart, sels, wholesalers, retailer, catalog, varejistaId, now);
      && (cart.None? || cart.value.itens == [] ==> out == Outcome([], Some(EmptyCart)))
      && (cart.Some? && cart.value.itens != [] &&
          (exists k :: 0 <= k < |cart.value.itens| && cart.value.itens[k].atacadistaId !in SelectionMap(sels)) ==>
            out.created == [] && out.failure.Some? && out.failure.value.AddressNotGiven? &&
            out.failure.value.atacadistaId !in SelectionMap(sels) &&
            exists k :: 0 <= k < |cart.value.itens| && cart.value.itens[k].atacadistaId == out.failure.value.atacadistaId)
      && ((cart.Some? && cart.value.itens != [] &&
           (forall k :: 0 <= k < |cart.value.itens| ==> cart.value.itens[k].atacadistaId in SelectionMap(sels)) &&
           retailer.None?) ==> out == Outcome([], Some(RetailerNotFound)))
  {
    if cart.Some? && cart.value.itens != [] {
      var items := cart.value.itens;
      var choices := SelectionMap(sels);
      if exists k :: 0 <= k < |items| && items[k].atacadistaId !in choices {
        var k :| 0 <= k < |items| && items[k].atacadistaId !in choices;
        UnselectedIsFound(items, choices, k);
        var keys := GroupKeys(items);
        var i := FirstUnselected(keys, choices);
        assert CheckoutRun(cart, sels, wholesalers, retailer, catalog, varejistaId, now) ==
               Outcome([], Some(AddressNotGiven(keys[i])));
      } else {
        AllSelectedPasses(items, choices);
      }
    }
  }

  /** A cart wholesaler without a request entry stops the scan at a
      wholesaler of the cart that has none. */
  lemma UnselectedIsFound(items: seq<CartLine>, choices: map<string, Selection>, k: nat)
    requires k < |items| && items[k].atacadistaId !in choices
    ensures var keys := GroupKeys(items);
      var i := FirstUnselected(keys, choices);
      && i < |keys| && keys[i] !in choices
      && exists k' :: 0 <= k' < |items| && items[k'].atacadistaId == keys[i]
  {
    var keys := GroupKeys(items);
    assert WholesalerIds(items)[k] == items[k].atacadistaId;
    assert items[k].atacadistaId in keys;
    var i := FirstUnselected(keys, choices);
    assert keys[i] in WholesalerIds(items);
    var k' :| 0 <= k' < |items| && WholesalerIds(items)[k'] == keys[i];
  }

  /** When every cart wholesaler has a request entry the scan passes all keys. */
  lemma AllSelectedPasses(items: seq<CartLine>, choices: map<string, Selection>)
    requires forall k :: 0 <= k < |items| ==> items[k].atacadistaId in choices
    ensures FirstUnselected(GroupKeys(items), choices) == |GroupKeys(items)|
  {
    var keys := GroupKeys(items);
    forall j | 0 <= j < |keys| ensures keys[j] in choices {
      assert keys[j] in WholesalerIds(items);
    }
  }

  // --------------------------------------------------------- group totals

  /** The sum of the group totals of `keys`. */
  function GroupsTotal(keys: seq<string>, items: seq<CartLine>): nat
  {
    if keys == [] then 0 else Sum(LinesOf(items, keys[0])) + GroupsTotal(keys[1..], items)
  }

  lemma {:induction false} GroupsTotalSnocItem(keys: seq<string>, items: seq<CartLine>, x: CartLine)
    requires NoDuplicates(keys)
    ensures GroupsTotal(keys, items + [x]) ==
              GroupsTotal(keys, items) + (if x.atacadistaId in keys then x.subtotal else 0)
  {
    if keys != [] {
      var w := keys[0];
      var rest := keys[1..];
      NoDuplicatesTail(keys);
      GroupsTotalSnocItem(rest, items, x);
      var before := Sum(LinesOf(items, w));
      var after := Sum(LinesOf(items + [x], w));
      assert GroupsTotal(keys, items) == before + GroupsTotal(rest, items);
      assert GroupsTotal(keys, items + [x]) == after + GroupsTotal(rest, items + [x]);
      LinesOfSnoc(items, x, w);
      if x.atacadistaId == w {
        SumAppend(LinesOf(items, w), [x]);
        assert Sum([x]) == x.subtotal;
        assert after == before + x.subtotal;
      } else {
        assert LinesOf(items, w) + [] == LinesOf(items, w);
        assert after == before;
        if x.atacadistaId in keys {
          var k :| 0 <= k < |keys| && keys[k] == x.atacadistaId;
          assert rest[k - 1] == keys[k];
        }
        if x.atacadistaId in rest {
          var k :| 0 <= k < |rest| && rest[k] == x.atacadistaId;
          assert keys[k + 1] == rest[k];
        }
      }
    }
  }

  lemma {:induction false} GroupsTotalSnocKey(keys: seq<string>, items: seq<CartLine>, w: string)
    ensures GroupsTotal(keys + [w], items) == GroupsTotal(keys, items) + Sum(LinesOf(items, w))
  {
    if keys == [] {
      assert ([] + [w])[1..] == [];
    } else {
      assert (keys + [w])[1..] == keys[1..] + [w];
      GroupsTotalSnocKey(keys[1..], items, w);
    }
  }

  /** The groups partition the cart: their totals add up to the cart total. */
  lemma {:induction false} GroupsPartitionCart(items: seq<CartLine>)
    ensures GroupsTotal(GroupKeys(items), items) == Sum(items)
  {
    if items != [] {
      var p := items[..|items| - 1];
      var x := items[|items| - 1];
      assert items == p + [x];
      GroupsPartitionCart(p);
      WholesalerIdsSnoc(p, x);
      DistinctSnoc(WholesalerIds(p), x.atacadistaId);
      SumAppend(p, [x]);
      var keys := GroupKeys(p);
      if x.atacadistaId in keys {
        GroupsTotalSnocItem(keys, p, x);
      } else {
        var keys2 := keys + [x.atacadistaId];
        assert NoDuplicates(keys2);
        GroupsTotalSnocItem(keys2, p, x);
        GroupsTotalSnocKey(keys, p, x.atacadistaId);
        LinesOfAbsent(p, x.atacadistaId);
      }
    }
  }

  /** Orders that carry the totals of the groups of `keys`, in order, add up
      to the groups' total. */
  lemma {:induction false} OrdersCarryGroupTotals(created: seq<Order>, keys: seq<string>, items: seq<CartLine>)
    requires |created| == |keys|
    requires forall k :: 0 <= k < |keys| ==> created[k].valorTotal == Sum(LinesOf(items, keys[k]))
    ensures OrdersTotal(created) == GroupsTotal(keys, items)
  {
    if keys != [] {
      OrdersCarryGroupTotals(created[1..], keys[1..], items);
    }
  }

  /** A checkout that goes through creates one pending order per wholesaler
      of the cart, in order of first appearance, each with that wholesaler's
      group total, and the order totals add up to the cart total. */
  lemma CheckoutSuccess(cart: Option<Cart>, sels: seq<Selection>, wholesalers: map<string, Wholesaler>,
                        retailer: Option<seq<Address>>, catalog: map<string, Product>, varejistaId: string, now: int)
    requires CheckoutRun(cart, sels, wholesalers, retailer, catalog, varejistaId, now).failure.None?
    ensures var out := CheckoutRun(cart, sels, wholesalers, retailer, catalog, varejistaId, now);
      && cart.Some? && cart.value.itens != []
      && |out.created| == |GroupKeys(cart.value.itens)|
      && (forall k :: 0 <= k < |out.created| ==>
            && out.created[k].atacadistaId == GroupKeys(cart.value.itens)[k]
            && out.created[k].status == Pendente
            && out.created[k].valorTotal == Sum(LinesOf(cart.value.itens, out.created[k].atacadistaId)))
      && OrdersTotal(out.created) == Sum(cart.value.itens)
  {
    var items := cart.value.itens;
    var keys := GroupKeys(items);
    var choices := SelectionMap(sels);
    var addrs := AddressMap(retailer.value);
    var results := GroupResults(keys, items, choices, wholesalers, addrs, catalog, varejistaId, now);
    RunGroupsShape(results);
    var out := RunGroups(results);
    forall k | 0 <= k < |out.created|
      ensures out.created[k].atacadistaId == keys[k] && out.created[k].status == Pendente
      ensures out.created[k].valorTotal == Sum(LinesOf(items, keys[k]))
    {
      GroupOrderOutcome(keys[k], LinesOf(items, keys[k]), choices[keys[k]], wholesalers, addrs, catalog, varejistaId, now);
    }
    OrdersCarryGroupTotals(out.created, keys, items);
    GroupsPartitionCart(items);
  }

  /** Once the cart is non-empty, every wholesaler has a request entry and
      the retailer exists, checkout goes through exactly when every group's
      order goes through, and then it creates one order per group. */
  lemma CheckoutPassesIffGroupsPass(items: seq<CartLine>, sels: seq<Selection>, wholesalers: map<string, Wholesaler>,
                                    addrs: seq<Address>, catalog: map<string, Product>, varejistaId: string, now: int)
    requires items != []
    requires forall k :: 0 <= k < |items| ==> items[k].atacadistaId in SelectionMap(sels)
    ensures var out := CheckoutItems(items, sels, wholesalers, Some(addrs), catalog, varejistaId, now);
      var keys := GroupKeys(items);
      && (out.failure.None? <==>
            forall j :: 0 <= j < |keys| ==>
              keys[j] in SelectionMap(sels) &&
              GroupOrder(keys[j], LinesOf(items, keys[j]), SelectionMap(sels)[keys[j]], wholesalers,
                         AddressMap(addrs), catalog, varejistaId, now).Ok?)
      && (out.failure.None? ==> |out.created| == |keys|)
  {
    var keys := GroupKeys(items);
    var choices := SelectionMap(sels);
    AllSelectedPasses(items, choices);
    var results := GroupResults(keys, items, choices, wholesalers, AddressMap(addrs), catalog, varejistaId, now);
    assert CheckoutItems(items, sels, wholesalers, Some(addrs), catalog, varejistaId, now) == RunGroups(results);
    RunGroupsPasses(results);
    forall j | 0 <= j < |keys|
      ensures results[j] == GroupOrder(keys[j], LinesOf(items, keys[j]), choices[keys[j]], wholesalers,
                                       AddressMap(addrs), catalog, varejistaId, now)
    {
    }
  }

  /** The group loop goes through exactly when every group does. */
  lemma RunGroupsPasses(results: seq<Result<Order, ServiceError>>)
    ensures var out := RunGroups(results);
      && (out.failure.None? <==> forall k :: 0 <= k < |results| ==> results[k].Ok?)
      && (out.failure.None? ==> |out.created| == |results|)
  {
    RunGroupsShape(results);
  }
}
