/** The orders checkout writes to the shared `pedidos` collection. */
module Orders {
  import opened Addresses

  /** `PedidoStatus`: checkout only ever writes `Pendente`; the other states
      belong to the wholesaler side. */
  datatype PedidoStatus = Pendente | Aceito | Recusado | Entregue

  /** One order line, copied from a cart line. `quantidade` is an int because
      duplication reads stored orders, whose items it does not trust. */
  datatype OrderItem = OrderItem(
    produtoId: string,
    descricaoProduto: string,
    unidade: string,
    quantidade: int,
    valorUnitario: nat,
    valorTotal: nat)

  datatype Order = Order(
    atacadistaId: string,
    varejistaId: string,
    condicaoPagamento: string,
    enderecoEntrega: Address,
    itens: seq<OrderItem>,
    valorTotal: nat,
    status: PedidoStatus,
    dataCriacao: int)

  /** `PedidoGeradoResumo`: the id of a created order is its position in the
      collection. */
  datatype OrderSummary = OrderSummary(pedidoId: nat, atacadistaId: string, valorTotal: nat)

  /** The summaries checkout returns for orders stored from position `base` on. */
  function Summaries(created: seq<Order>, base: nat): seq<OrderSummary>
  {
    if created == [] then []
    else
      var o := created[|created| - 1];
      Summaries(created[..|created| - 1], base) + [OrderSummary(base + |created| - 1, o.atacadistaId, o.valorTotal)]
  }

  /** Storing one more order adds its summary, with the next id, at the end. */
  lemma SummariesSnoc(created: seq<Order>, o: Order, base: nat)
    ensures Summaries(created + [o], base) == Summaries(created, base) + [OrderSummary(base + |created|, o.atacadistaId, o.valorTotal)]
  {
    assert (created + [o])[..|created + [o]| - 1] == created;
  }

  /** One summary per created order, in order: the k-th carries id
      `base + k` and that order's wholesaler and total. */
  lemma {:induction false} SummariesAt(created: seq<Order>, base: nat)
    ensures |Summaries(created, base)| == |created|
    ensures forall k :: 0 <= k < |created| ==>
              Summaries(created, base)[k] == OrderSummary(base + k, created[k].atacadistaId, created[k].valorTotal)
  {
    if created != [] {
      SummariesAt(created[..|created| - 1], base);
    }
  }

  /** The sum of the item totals of an order. */
  function ItemsTotal(items: seq<OrderItem>): nat
  {
    if items == [] then 0 else items[0].valorTotal + ItemsTotal(items[1..])
  }

  /** The sum of the totals of several orders. */
  function OrdersTotal(orders: seq<Order>): nat
  {
    if orders == [] then 0 else orders[0].valorTotal + OrdersTotal(orders[1..])
  }
}
