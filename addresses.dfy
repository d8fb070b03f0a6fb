/** The delivery addresses a retailer keeps embedded in its own document, and
    the rules that keep at most one of them flagged as the primary address. */
module Addresses {
  import opened Common
  import opened Errors

  /** A stored delivery address. */
  datatype Address = Address(
    id: string,
    descricao: string,
    logradouro: string,
    numero: string,
    bairro: string,
    cidade: string,
    uf: string,
    cep: string,
    complemento: Option<string>,
    ehPrincipal: bool)

  /** The creation payload (`EnderecoCreate`); the id is generated. */
  datatype NewAddress = NewAddress(
    descricao: string,
    logradouro: string,
    numero: string,
    bairro: string,
    cidade: string,
    uf: string,
    cep: string,
    complemento: Option<string>,
    ehPrincipal: bool)

  /** The update payload (`EnderecoUpdate`): None is a field the caller did
      not send. `complemento` may be sent as null, hence the nested option.
      There is no way to send the primary flag. */
  datatype AddressPatch = AddressPatch(
    descricao: Option<string>,
    logradouro: Option<string>,
    numero: Option<string>,
    bairro: Option<string>,
    cidade: Option<string>,
    uf: Option<string>,
    cep: Option<string>,
    complemento: Option<Option<string>>)

  /** The number of addresses flagged primary. */
  function PrimaryCount(s: seq<Address>): (n: nat)
    ensures n <= |s|
  {
    if s == [] then 0 else (if s[0].ehPrincipal then 1 else 0) + PrimaryCount(s[1..])
  }

  predicate HasPrimary(s: seq<Address>)
  {
    exists k :: 0 <= k < |s| && s[k].ehPrincipal
  }

  predicate HasId(s: seq<Address>, id: string)
  {
    exists k :: 0 <= k < |s| && s[k].id == id
  }

  /** No two addresses share an id (the ids are generated with uuid4). */
  predicate UniqueIds(s: seq<Address>)
  {
    forall i, j :: 0 <= i < j < |s| ==> s[i].id != s[j].id
  }

  /** The state the address endpoints keep: distinct ids, at most one primary. */
  predicate Consistent(s: seq<Address>)
  {
    UniqueIds(s) && PrimaryCount(s) <= 1
  }

  /** Counting agrees with the flags: none counted exactly when none is set. */
  lemma {:induction false} PrimaryCountZero(s: seq<Address>)
    ensures PrimaryCount(s) == 0 <==> !HasPrimary(s)
  {
    if s != [] {
      PrimaryCountZero(s[1..]);
      if HasPrimary(s[1..]) {
        var k :| 0 <= k < |s[1..]| && s[1..][k].ehPrincipal;
        assert s[k + 1].ehPrincipal;
      }
      if HasPrimary(s) && !s[0].ehPrincipal {
        var k :| 0 <= k < |s| && s[k].ehPrincipal;
        assert s[1..][k - 1].ehPrincipal;
      }
    }
  }

  /** A count of one means a single flagged address. */
  lemma {:induction false} PrimaryCountOne(s: seq<Address>)
    requires PrimaryCount(s) == 1
    ensures exists i :: 0 <= i < |s| && s[i].ehPrincipal &&
                        forall k :: 0 <= k < |s| && k != i ==> !s[k].ehPrincipal
  {
    if s[0].ehPrincipal {
      PrimaryCountZero(s[1..]);
      forall k | 0 < k < |s| ensures !s[k].ehPrincipal {
        assert s[k] == s[1..][k - 1];
      }
    } else {
      PrimaryCountOne(s[1..]);
      var i :| 0 <= i < |s[1..]| && s[1..][i].ehPrincipal &&
               forall k :: 0 <= k < |s[1..]| && k != i ==> !s[1..][k].ehPrincipal;
      forall k | 0 < k < |s| && k != i + 1 ensures !s[k].ehPrincipal {
        assert s[k] == s[1..][k - 1];
      }
    }
  }

  lemma {:induction false} PrimaryCountAppend(s: seq<Address>, t: seq<Address>)
    ensures PrimaryCount(s + t) == PrimaryCount(s) + PrimaryCount(t)
  {
    if s != [] {
      assert (s + t)[1..] == s[1..] + t;
      PrimaryCountAppend(s[1..], t);
    } else {
      assert s + t == t;
    }
  }

  // ---------------------------------------------------------------- create

  /** Every address with the primary flag cleared. */
  function Demoted(s: seq<Address>): (r: seq<Address>)
  {
    seq(|s|, k requires 0 <= k < |s| => s[k].(ehPrincipal := false))
  }

  lemma {:induction false} DemotedHasNoPrimary(s: seq<Address>)
    ensures |Demoted(s)| == |s| && PrimaryCount(Demoted(s)) == 0
    ensures forall k :: 0 <= k < |s| ==> Demoted(s)[k].id == s[k].id
  {
    PrimaryCountZero(Demoted(s));
  }

  /** The address `criar_endereco` stores: the payload under the new id,
      forced primary when the list was empty. */
  function NewEntry(s: seq<Address>, n: NewAddress, newId: string): Address
  {
    Address(newId, n.descricao, n.logradouro, n.numero, n.bairro, n.cidade, n.uf, n.cep,
            n.complemento, n.ehPrincipal || s == [])
  }

  /** The list after `criar_endereco`: a primary payload first demotes every
      stored address; the new address always goes last. */
  function Created(s: seq<Address>, n: NewAddress, newId: string): seq<Address>
  {
    (if n.ehPrincipal then Demoted(s) else s) + [NewEntry(s, n, newId)]
  }

  /** Creating a primary address, or the first address, leaves exactly that
      new address flagged. */
  lemma CreateMakesSolePrimary(s: seq<Address>, n: NewAddress, newId: string)
    requires n.ehPrincipal || s == []
    ensures var r := Created(s, n, newId);
      && |r| == |s| + 1
      && r[|s|].id == newId && r[|s|].ehPrincipal
      && (forall k :: 0 <= k < |s| ==> !r[k].ehPrincipal && r[k].id == s[k].id)
      && PrimaryCount(r) == 1
  {
    var d := if n.ehPrincipal then Demoted(s) else s;
    DemotedHasNoPrimary(s);
    PrimaryCountAppend(d, [NewEntry(s, n, newId)]);
    assert PrimaryCount([NewEntry(s, n, newId)]) == 1;
  }

  /** Creating a non-primary address in a non-empty list leaves the stored
      addresses as they were and appends the new one unflagged. */
  lemma CreateKeepsFlags(s: seq<Address>, n: NewAddress, newId: string)
    requires !n.ehPrincipal && s != []
    ensures var r := Created(s, n, newId);
      && r[..|s|] == s
      && r[|s|].id == newId && !r[|s|].ehPrincipal
      && PrimaryCount(r) == PrimaryCount(s)
  {
    PrimaryCountAppend(s, [NewEntry(s, n, newId)]);
    assert Created(s, n, newId)[..|s|] == s;
  }

  /** With a fresh id, creation keeps ids unique and at most one primary. */
  lemma CreatePreservesInvariant(s: seq<Address>, n: NewAddress, newId: string)
    requires UniqueIds(s) && PrimaryCount(s) <= 1 && !HasId(s, newId)
    ensures UniqueIds(Created(s, n, newId)) && PrimaryCount(Created(s, n, newId)) <= 1
  {
    if n.ehPrincipal || s == [] {
      CreateMakesSolePrimary(s, n, newId);
    } else {
      CreateKeepsFlags(s, n, newId);
    }
    var r := Created(s, n, newId);
    forall i, j | 0 <= i < j < |r| ensures r[i].id != r[j].id {
      assert r[i].id == s[i].id;
      if j < |s| {
        assert r[j].id == s[j].id;
      }
    }
  }

  // ---------------------------------------------------------------- update

  /** Index of the first address with the id, or |s|. */
  function FirstWithId(s: seq<Address>, id: string): (i: nat)
    ensures i <= |s|
    ensures forall k :: 0 <= k < i ==> s[k].id != id
    ensures i < |s| ==> s[i].id == id
  {
    if s == [] then 0
    else if s[0].id == id then 0
    else 1 + FirstWithId(s[1..], id)
  }

  function PatchField(sent: Option<string>, current: string): string
  {
    if sent.Some? then sent.value else current
  }

  /** The fields the caller sent replace the stored ones; nothing else changes. */
  function Patched(a: Address, p: AddressPatch): Address
  {
    a.(descricao := PatchField(p.descricao, a.descricao),
       logradouro := PatchField(p.logradouro, a.logradouro),
       numero := PatchField(p.numero, a.numero),
       bairro := PatchField(p.bairro, a.bairro),
       cidade := PatchField(p.cidade, a.cidade),
       uf := PatchField(p.uf, a.uf),
       cep := PatchField(p.cep, a.cep),
       complemento := if p.complemento.Some? then p.complemento.value else a.complemento)
  }

  /** The list after `atualizar_endereco`: only the first address with the id
      is patched; an unknown id is rejected. */
  function Updated(s: seq<Address>, id: string, p: AddressPatch): Result<seq<Address>, ServiceError>
  {
    var i := FirstWithId(s, id);
    if i == |s| then Err(AddressNotFound) else Ok(s[i := Patched(s[i], p)])
  }

  /** An update fails exactly when no address has the id; otherwise it
      patches one address and keeps every id and every primary flag. */
  lemma UpdateKeepsFlags(s: seq<Address>, id: string, p: AddressPatch)
    ensures Updated(s, id, p).Err? <==> !HasId(s, id)
    ensures Updated(s, id, p).Ok? ==>
              var r := Updated(s, id, p).value;
              && |r| == |s|
              && (forall k :: 0 <= k < |s| ==> r[k].id == s[k].id && r[k].ehPrincipal == s[k].ehPrincipal)
              && PrimaryCount(r) == PrimaryCount(s)
              && (forall k :: 0 <= k < |s| && k != FirstWithId(s, id) ==> r[k] == s[k])
  {
    var i := FirstWithId(s, id);
    if i < |s| {
      var r := s[i := Patched(s[i], p)];
      assert r == s[..i] + [Patched(s[i], p)] + s[i + 1..];
      assert s == s[..i] + [s[i]] + s[i + 1..];
      PrimaryCountAppend(s[..i] + [Patched(s[i], p)], s[i + 1..]);
      PrimaryCountAppend(s[..i], [Patched(s[i], p)]);
      PrimaryCountAppend(s[..i] + [s[i]], s[i + 1..]);
      PrimaryCountAppend(s[..i], [s[i]]);
    }
  }

  // ---------------------------------------------------------------- delete

  /** The addresses whose id differs, in order (the list comprehension). */
  function WithoutId(s: seq<Address>, id: string): (r: seq<Address>)
    ensures |r| <= |s|
    ensures forall a :: a in r ==> a in s && a.id != id
    ensures forall k :: 0 <= k < |s| && s[k].id != id ==> s[k] in r
    ensures PrimaryCount(r) <= PrimaryCount(s)
  {
    if s == [] then []
    else
      var rest := WithoutId(s[1..], id);
      assert forall k :: 1 <= k < |s| ==> s[k] == s[1..][k - 1];
      if s[0].id != id then [s[0]] + rest else rest
  }

  /** The filter keeps the surviving addresses in their order and
      multiplicity: appending an address appends it to the result unless it
      has the id. */
  lemma {:induction false} WithoutIdSnoc(s: seq<Address>, x: Address, id: string)
    ensures WithoutId(s + [x], id) == WithoutId(s, id) + (if x.id != id then [x] else [])
  {
    if s != [] {
      assert (s + [x])[1..] == s[1..] + [x];
      WithoutIdSnoc(s[1..], x, id);
    }
  }

  lemma {:induction false} WithoutIdShorter(s: seq<Address>, id: string)
    ensures |WithoutId(s, id)| == |s| <==> !HasId(s, id)
  {
    if s != [] {
      WithoutIdShorter(s[1..], id);
      if HasId(s[1..], id) {
        var k :| 0 <= k < |s[1..]| && s[1..][k].id == id;
        assert s[k + 1].id == id;
      }
      if HasId(s, id) && s[0].id != id {
        var k :| 0 <= k < |s| && s[k].id == id;
        assert s[1..][k - 1].id == id;
      }
    }
  }

  /** Filtering keeps ids distinct: what is left is a subsequence. */
  lemma {:induction false} WithoutIdUnique(s: seq<Address>, id: string)
    requires UniqueIds(s)
    ensures UniqueIds(WithoutId(s, id))
  {
    if s != [] {
      var tail := s[1..];
      assert UniqueIds(tail) by {
        forall i, j | 0 <= i < j < |tail| ensures tail[i].id != tail[j].id {
          assert tail[i] == s[i + 1] && tail[j] == s[j + 1];
        }
      }
      var rest := WithoutId(tail, id);
      WithoutIdUnique(tail, id);
      if s[0].id != id {
        var r := [s[0]] + rest;
        assert WithoutId(s, id) == r;
        forall i, j | 0 <= i < j < |r| ensures r[i].id != r[j].id {
          assert r[j] == rest[j - 1];
          if i == 0 {
            assert rest[j - 1] in tail;
            var m :| 0 <= m < |tail| && tail[m] == rest[j - 1];
            assert s[m + 1] == r[j];
          } else {
            assert r[i] == rest[i - 1];
          }
        }
      } else {
        assert WithoutId(s, id) == rest;
      }
    }
  }

  /** The list after `deletar_endereco`: every address with the id goes; when
      that leaves addresses but no primary, the first becomes primary. */
  function Deleted(s: seq<Address>, id: string): Result<seq<Address>, ServiceError>
  {
    var r := WithoutId(s, id);
    if |r| == |s| then Err(AddressNotFound)
    else if !HasPrimary(r) && r != [] then Ok(r[0 := r[0].(ehPrincipal := true)])
    else Ok(r)
  }

  /** Delete fails exactly when no address has the id; otherwise the result is
      the other addresses in their order (see `WithoutIdSnoc`), with the first
      of them made primary when none of them is; no address with the id is
      left, and a non-empty list that had at most one primary ends up with
      exactly one. */
  lemma DeleteKeepsOnePrimary(s: seq<Address>, id: string)
    ensures Deleted(s, id).Err? <==> !HasId(s, id)
    ensures Deleted(s, id).Ok? ==>
              var r := Deleted(s, id).value;
              && |r| < |s|
              && (forall k :: 0 <= k < |r| ==> r[k].id != id)
              && (PrimaryCount(s) <= 1 ==> PrimaryCount(r) <= 1)
              && (PrimaryCount(s) <= 1 && r != [] ==> PrimaryCount(r) == 1)
              && (UniqueIds(s) ==> UniqueIds(r))
  ensures Deleted(s, id).Ok? ==>
              var w := WithoutId(s, id);
              Deleted(s, id).value == if HasPrimary(w) || w == [] then w else w[0 := w[0].(ehPrincipal := true)]
  {
    WithoutIdShorter(s, id);
    var w := WithoutId(s, id);
    PrimaryCountZero(w);
    if UniqueIds(s) {
      WithoutIdUnique(s, id);
    }
    if |w| < |s| && !HasPrimary(w) && w != [] {
      var r := w[0 := w[0].(ehPrincipal := true)];
      assert r[1..] == w[1..];
      assert PrimaryCount(w) == PrimaryCount(w[1..]);
      forall k | 0 <= k < |r| ensures r[k].id != id {
        assert r[k].id == w[k].id && w[k] in w;
      }
    } else if |w| < |s| {
      forall k | 0 <= k < |w| ensures w[k].id != id {
        assert w[k] in w;
      }
    }
  }

  // ----------------------------------------------------------- set primary

  /** Every address flagged exactly when it carries the id. */
  function WithPrimary(s: seq<Address>, id: string): (r: seq<Address>)
  {
    seq(|s|, k requires 0 <= k < |s| => s[k].(ehPrincipal := s[k].id == id))
  }

  /** The list after `definir_principal`; an unknown id is rejected. */
  function PrimarySet(s: seq<Address>, id: string): Result<seq<Address>, ServiceError>
  {
    if HasId(s, id) then Ok(WithPrimary(s, id)) else Err(AddressNotFound)
  }

  lemma {:induction false} WithPrimaryCount(s: seq<Address>, id: string)
    requires UniqueIds(s)
    ensures PrimaryCount(WithPrimary(s, id)) == if HasId(s, id) then 1 else 0
  {
    if s != [] {
      var r := WithPrimary(s, id);
      assert r[1..] == WithPrimary(s[1..], id);
      WithPrimaryCount(s[1..], id);
      if s[0].id == id {
        assert !HasId(s[1..], id) by {
          forall k | 0 <= k < |s[1..]| ensures s[1..][k].id != id {
            assert s[1..][k] == s[k + 1];
          }
        }
      } else if HasId(s, id) {
        var k :| 0 <= k < |s| && s[k].id == id;
        assert s[1..][k - 1].id == id;
      } else {
        assert !HasId(s[1..], id) by {
          forall k | 0 <= k < |s[1..]| ensures s[1..][k].id != id {
            assert s[1..][k] == s[k + 1];
          }
        }
      }
    }
  }

  /** Setting the primary address flags exactly the addresses with that id,
      changes nothing else, and with unique ids leaves exactly one primary. */
  lemma SetPrimaryMakesSolePrimary(s: seq<Address>, id: string)
    ensures PrimarySet(s, id).Err? <==> !HasId(s, id)
    ensures PrimarySet(s, id).Ok? ==>
              var r := PrimarySet(s, id).value;
              && |r| == |s|
              && (forall k :: 0 <= k < |s| ==> r[k] == s[k].(ehPrincipal := s[k].id == id))
              && (UniqueIds(s) ==> PrimaryCount(r) == 1)
  {
    if HasId(s, id) && UniqueIds(s) {
      WithPrimaryCount(s, id);
    }
  }

  // ------------------------------------------------------------ invariant

  /** An update keeps a consistent list consistent. */
  lemma UpdateKeepsConsistent(s: seq<Address>, id: string, p: AddressPatch)
    ensures Consistent(s) && Updated(s, id, p).Ok? ==> Consistent(Updated(s, id, p).value)
  {
    UpdateKeepsFlags(s, id, p);
    if Consistent(s) && Updated(s, id, p).Ok? {
      var r := Updated(s, id, p).value;
      forall i, j | 0 <= i < j < |r| ensures r[i].id != r[j].id {
        assert r[i].id == s[i].id && r[j].id == s[j].id;
      }
    }
  }

  /** Setting the primary address keeps a consistent list consistent. */
  lemma SetPrimaryKeepsConsistent(s: seq<Address>, id: string)
    ensures Consistent(s) && PrimarySet(s, id).Ok? ==> Consistent(PrimarySet(s, id).value)
  {
    SetPrimaryMakesSolePrimary(s, id);
    if Consistent(s) && PrimarySet(s, id).Ok? {
      var r := PrimarySet(s, id).value;
      forall i, j | 0 <= i < j < |r| ensures r[i].id != r[j].id {
        assert r[i].id == s[i].id && r[j].id == s[j].id;
      }
    }
  }

  /** Each of the four operations keeps a consistent list consistent;
      creation needs the generated id to be new to the list. */
  lemma OperationsKeepConsistent(s: seq<Address>, n: NewAddress, newId: string, id: string, p: AddressPatch)
    requires Consistent(s)
    ensures !HasId(s, newId) ==> Consistent(Created(s, n, newId))
    ensures Updated(s, id, p).Ok? ==> Consistent(Updated(s, id, p).value)
    ensures Deleted(s, id).Ok? ==> Consistent(Deleted(s, id).value)
    ensures PrimarySet(s, id).Ok? ==> Consistent(PrimarySet(s, id).value)
  {
    if !HasId(s, newId) {
      CreatePreservesInvariant(s, n, newId);
    }
    UpdateKeepsConsistent(s, id, p);
    DeleteKeepsOnePrimary(s, id);
    SetPrimaryKeepsConsistent(s, id);
  }
}
