/** The failures the services raise, each with the HTTP status the API
    answers with. */
module Errors {

  /** The structured payload of a MIN_ORDER_NOT_REACHED rejection, in cents. */
  datatype MinimumOrderDetail = MinimumOrderDetail(
    atacadistaId: string,
    atacadistaNome: string,
    valorTotalAtual: int,
    pedidoMinimo: int,
    faltante: int)

  datatype ServiceError =
    | ProductNotFound                          // "Produto nao encontrado"
    | ProductNotFromWholesaler                 // "Produto nao pertence ao atacadista informado"
    | UnitUnavailable                          // "Unidade de medida nao disponivel para este produto"
    | CartNotFound                             // "Carrinho nao encontrado"
    | ItemNotFound                             // "Item nao encontrado no carrinho"
    | EmptyCart                                // "Carrinho vazio"
    | AddressNotGiven(atacadistaId: string)    // no delivery address chosen for a wholesaler
    | RetailerNotFound                         // "Varejista nao encontrado"
    | WholesalerNotFound(atacadistaId: string)
    | InvalidPaymentTerm(atacadistaId: string)
    | MinOrderNotReached(detail: MinimumOrderDetail)
    | DeliveryAddressNotFound(atacadistaId: string)
    | OrderNotFound                            // "Pedido nao encontrado"
    | AddressNotFound                          // "Endereco nao encontrado"

  /** 404 for a missing resource, 400 for every other rejection. */
  function HttpStatus(e: ServiceError): (code: int)
    ensures code == 404 <==> (e.ProductNotFound? || e.CartNotFound? || e.ItemNotFound? ||
                              e.RetailerNotFound? || e.OrderNotFound? || e.AddressNotFound?)
    ensures code == 404 || code == 400
  {
    match e
    case ProductNotFound | CartNotFound | ItemNotFound | RetailerNotFound | OrderNotFound | AddressNotFound => 404
    case _ => 400
  }
}
