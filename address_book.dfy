/** The address endpoints over the retailer documents: each retailer's
    embedded address list, read, changed in place and written back whole. */
module AddressBook {
  import opened Common
  import opened Errors
  import opened Addresses

  class AddressService {
    /** The `enderecos` list of every retailer document, by retailer id. A
        retailer without a document has no key. */
    var enderecos: map<string, seq<Address>>

    /** Every retailer's list has distinct ids and at most one primary
        address. The endpoints do not check it of what they read; they keep
        it when it held. */
    ghost predicate Valid()
      reads this
    {
      forall v :: v in enderecos ==> Consistent(enderecos[v])
    }

    constructor (stored: map<string, seq<Address>>)
      ensures enderecos == stored
    {
      enderecos := stored;
    }

    /** `criar_endereco`: `newId` is the generated uuid. */
    method CreateAddress(varejistaId: string, payload: NewAddress, newId: string) returns (r: Result<Address, ServiceError>)
      requires |payload.uf| == 2
      modifies this
      ensures old(Valid()) && (varejistaId in old(enderecos) ==> !HasId(old(enderecos)[varejistaId], newId)) ==> Valid()
      ensures varejistaId !in old(enderecos) ==> r == Err(RetailerNotFound) && enderecos == old(enderecos)
      ensures varejistaId in old(enderecos) ==>
                var s := old(enderecos)[varejistaId];
                && r == Ok(NewEntry(s, payload, newId))
                && enderecos == old(enderecos)[varejistaId := Created(s, payload, newId)]
    {
      if varejistaId !in enderecos {
        return Err(RetailerNotFound);
      }
      var lista := enderecos[varejistaId];
      if Consistent(lista) && !HasId(lista, newId) {
        CreatePreservesInvariant(lista, payload, newId);
      }
      var novo := Address(newId, payload.descricao, payload.logradouro, payload.numero, payload.bairro,
                          payload.cidade, payload.uf, payload.cep, payload.complemento, payload.ehPrincipal);
      if payload.ehPrincipal {
        var i := 0;
        while i < |lista|
          invariant 0 <= i <= |lista| && |lista| == |enderecos[varejistaId]|
          invariant lista[..i] == Demoted(enderecos[varejistaId])[..i]
          invariant lista[i..] == enderecos[varejistaId][i..]
        {
          lista := lista[i := lista[i].(ehPrincipal := false)];
          i := i + 1;
        }
        assert lista == lista[..i] && Demoted(enderecos[varejistaId]) == Demoted(enderecos[varejistaId])[..i];
      } else if lista == [] {
        novo := novo.(ehPrincipal := true);
      }
      lista := lista + [novo];
      enderecos := enderecos[varejistaId := lista];
      return Ok(novo);
    }

    /** `atualizar_endereco`: the first address with the id takes the fields
        the caller sent. */
    method UpdateAddress(varejistaId: string, enderecoId: string, patch: AddressPatch) returns (r: Result<Address, ServiceError>)
      requires patch.uf.Some? ==> |patch.uf.value| == 2
      modifies this
      ensures old(Valid()) ==> Valid()
      ensures varejistaId !in old(enderecos) ==> r == Err(RetailerNotFound) && enderecos == old(enderecos)
      ensures varejistaId in old(enderecos) ==>
                var s := old(enderecos)[varejistaId];
                match Updated(s, enderecoId, patch)
                case Err(e) => r == Err(e) && enderecos == old(enderecos)
                case Ok(t) =>
                  && r == Ok(Patched(s[FirstWithId(s, enderecoId)], patch))
                  && enderecos == old(enderecos)[varejistaId := t]
    {
      if varejistaId !in enderecos {
        return Err(RetailerNotFound);
      }
      var lista := enderecos[varejistaId];
      UpdateKeepsConsistent(lista, enderecoId, patch);
      var i := 0;
      while i < |lista|
        invariant 0 <= i <= |lista|
        invariant forall k :: 0 <= k < i ==> lista[k].id != enderecoId
      {
        if lista[i].id == enderecoId {
          var e := Patched(lista[i], patch);
          enderecos := enderecos[varejistaId := lista[i := e]];
          return Ok(e);
        }
        i := i + 1;
      }
      return Err(AddressNotFound);
    }

    /** `deletar_endereco`. */
    method DeleteAddress(varejistaId: string, enderecoId: string) returns (r: Result<(), ServiceError>)
      modifies this
      ensures old(Valid()) ==> Valid()
      ensures varejistaId !in old(enderecos) ==> r == Err(RetailerNotFound) && enderecos == old(enderecos)
      ensures varejistaId in old(enderecos) ==>
                match Deleted(old(enderecos)[varejistaId], enderecoId)
                case Err(e) => r == Err(e) && enderecos == old(enderecos)
                case Ok(t) => r == Ok(()) && enderecos == old(enderecos)[varejistaId := t]
      ensures r.Ok? <==> varejistaId in old(enderecos) && HasId(old(enderecos)[varejistaId], enderecoId)
      ensures r.Ok? ==>
                var w := WithoutId(old(enderecos)[varejistaId], enderecoId);
                && varejistaId in enderecos
                && enderecos[varejistaId] == if HasPrimary(w) || w == [] then w else w[0 := w[0].(ehPrincipal := true)]
    {
      if varejistaId !in enderecos {
        return Err(RetailerNotFound);
      }
      var lista := enderecos[varejistaId];
      DeleteKeepsOnePrimary(lista, enderecoId);
      var novaLista := WithoutId(lista, enderecoId);
      if |novaLista| == |lista| {
        return Err(AddressNotFound);
      }
      if !HasPrimary(novaLista) && novaLista != [] {
        novaLista := novaLista[0 := novaLista[0].(ehPrincipal := true)];
      }
      enderecos := enderecos[varejistaId := novaLista];
      return Ok(());
    }

    /** `definir_principal`: one pass flags the addresses with the id and
        clears every other flag; nothing is written when the id is absent. */
    method SetPrimary(varejistaId: string, enderecoId: string) returns (r: Result<string, ServiceError>)
      modifies this
      ensures old(Valid()) ==> Valid()
      ensures varejistaId !in old(enderecos) ==> r == Err(RetailerNotFound) && enderecos == old(enderecos)
      ensures varejistaId in old(enderecos) ==>
                match PrimarySet(old(enderecos)[varejistaId], enderecoId)
                case Err(e) => r == Err(e) && enderecos == old(enderecos)
                case Ok(t) => r == Ok(enderecoId) && enderecos == old(enderecos)[varejistaId := t]
    {
      if varejistaId !in enderecos {
        return Err(RetailerNotFound);
      }
      var original := enderecos[varejistaId];
      SetPrimaryKeepsConsistent(original, enderecoId);
      var lista := original;
      var found := false;
      var i := 0;
      while i < |lista|
        invariant 0 <= i <= |lista| && |lista| == |original|
        invariant forall k :: 0 <= k < i ==> lista[k] == original[k].(ehPrincipal := original[k].id == enderecoId)
        invariant forall k :: i <= k < |lista| ==> lista[k] == original[k]
        invariant found <==> exists k :: 0 <= k < i && original[k].id == enderecoId
      {
        if lista[i].id == enderecoId {
          found := true;
          lista := lista[i := lista[i].(ehPrincipal := true)];
        } else {
          lista := lista[i := lista[i].(ehPrincipal := false)];
        }
        i := i + 1;
      }
      if !found {
        return Err(AddressNotFound);
      }
      assert lista == WithPrimary(original, enderecoId);
      enderecos := enderecos[varejistaId := lista];
      return Ok(enderecoId);
    }
  }
}
