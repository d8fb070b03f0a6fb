/** Product documents of the shared catalogue and the two ways the services
    read their prices: the unit-price resolver the cart charges with
    (`_obter_preco_por_unidade`) and the normalised price table shown to
    retailers (`_get_precos_produto` in the cart service, the price part of
    `_to_response` in the product service; the two are the same code). */
module Catalog {
  import opened Common
  import opened Errors

  /** A `quantidade_unidades` / `qtd_unidades` field as stored: missing, a
      number, or a value that `int(...)` rejects. */
  datatype RawCount = Absent | Count(n: int) | Unparsable

  /** One entry of a product's `precos` array as stored; any field may be missing. */
  datatype RawPrice = RawPrice(
    unidade: Option<string>,
    preco: Option<nat>,
    quantidadeUnidades: RawCount,
    qtdUnidades: RawCount)

  /** A product document. `precoUnidade`, `precoCaixa` and `precoPalete` are
      the legacy single prices for the units "unidade", "caixa" and "palete". */
  datatype Product = Product(
    id: string,
    codigo: string,
    descricao: string,
    imagemBase64: Option<string>,
    estoque: int,
    atacadistaId: Option<string>,
    precos: seq<RawPrice>,
    precoUnidade: Option<nat>,
    precoCaixa: Option<nat>,
    precoPalete: Option<nat>)

  /** A normalised price entry, as the API returns it. */
  datatype PriceEntry = PriceEntry(unidade: string, preco: nat, quantidadeUnidades: nat)

  /** The legacy unit names, in the order the price table lists them. */
  const LegacyUnits: seq<string> := ["unidade", "caixa", "palete"]

  /** Python truthiness of a stored count: missing and zero are false. */
  predicate Truthy(c: RawCount)
  {
    c.Unparsable? || (c.Count? && c.n != 0)
  }

  /** `max(int(quantidade_unidades or qtd_unidades or 1), 1)`, with 1 when
      `int(...)` fails. */
  function UnitsPerPackage(e: RawPrice): (n: nat)
    ensures n >= 1
    ensures e.quantidadeUnidades.Count? && e.quantidadeUnidades.n >= 1 ==> n == e.quantidadeUnidades.n
    ensures !Truthy(e.quantidadeUnidades) && e.qtdUnidades.Count? && e.qtdUnidades.n >= 1 ==> n == e.qtdUnidades.n
  {
    var raw :=
      if Truthy(e.quantidadeUnidades) then e.quantidadeUnidades
      else if Truthy(e.qtdUnidades) then e.qtdUnidades
      else Count(1);
    if raw.Count? && raw.n >= 1 then raw.n else 1
  }

  /** The legacy price field for a unit name; no other unit has one. */
  function LegacyPrice(p: Product, unidade: string): Option<nat>
  {
    if unidade == "unidade" then p.precoUnidade
    else if unidade == "caixa" then p.precoCaixa
    else if unidade == "palete" then p.precoPalete
    else None
  }

  /** A stored entry that can price `unidade`: same unit, price present. */
  predicate PricedFor(e: RawPrice, unidade: string)
  {
    e.unidade == Some(unidade) && e.preco.Some?
  }

  /** Index of the first stored entry that prices `unidade`, or |precos|. */
  function FirstPricedEntry(precos: seq<RawPrice>, unidade: string): (i: nat)
    ensures i <= |precos|
    ensures forall k :: 0 <= k < i ==> !PricedFor(precos[k], unidade)
    ensures i < |precos| ==> PricedFor(precos[i], unidade)
  {
    if precos == [] then 0
    else if PricedFor(precos[0], unidade) then 0
    else 1 + FirstPricedEntry(precos[1..], unidade)
  }

  /** The unit price the cart charges (`_obter_preco_por_unidade`): the first
      stored entry for the unit that has a price wins; otherwise the legacy
      field of "unidade", "caixa" or "palete"; anything else is rejected. */
  function UnitPrice(p: Product, unidade: string): (r: Result<nat, ServiceError>)
    ensures r.Err? ==> r.error == UnitUnavailable
    ensures forall k :: 0 <= k < |p.precos| && PricedFor(p.precos[k], unidade) &&
                        (forall j :: 0 <= j < k ==> !PricedFor(p.precos[j], unidade))
                        ==> r == Ok(p.precos[k].preco.value)
    ensures (forall k :: 0 <= k < |p.precos| ==> !PricedFor(p.precos[k], unidade)) ==>
              (r.Ok? <==> LegacyPrice(p, unidade).Some?) &&
              (r.Ok? ==> r.value == LegacyPrice(p, unidade).value)
    ensures unidade !in LegacyUnits ==>
              (r.Ok? <==> exists k :: 0 <= k < |p.precos| && PricedFor(p.precos[k], unidade))
  {
    var i := FirstPricedEntry(p.precos, unidade);
    if i < |p.precos| then Ok(p.precos[i].preco.value)
    else
      match LegacyPrice(p, unidade)
      case Some(x) => Ok(x)
      case None => Err(UnitUnavailable)
  }

  /** A stored entry the price table keeps: a non-empty unit and a price. */
  predicate Listable(e: RawPrice)
  {
    e.unidade.Some? && e.unidade.value != "" && e.preco.Some?
  }

  function Normalised(e: RawPrice): PriceEntry
    requires Listable(e)
  {
    PriceEntry(e.unidade.value, e.preco.value, UnitsPerPackage(e))
  }

  /** The stored entries the table keeps, normalised, in stored order. */
  function ListedEntries(raw: seq<RawPrice>): (r: seq<PriceEntry>)
    ensures |r| <= |raw|
    ensures forall e :: e in r ==> e.unidade != "" && e.quantidadeUnidades >= 1
    ensures forall k :: 0 <= k < |raw| && Listable(raw[k]) ==> Normalised(raw[k]) in r
    ensures forall e :: e in r ==> exists k :: 0 <= k < |raw| && Listable(raw[k]) && e == Normalised(raw[k])
    ensures r == [] <==> forall k :: 0 <= k < |raw| ==> !Listable(raw[k])
  {
    if raw == [] then []
    else
      var rest := ListedEntries(raw[1..]);
      assert forall k :: 1 <= k < |raw| ==> raw[k] == raw[1..][k - 1];
      if Listable(raw[0]) then [Normalised(raw[0])] + rest else rest
  }

  /** ListedEntries grows by at most the one entry appended to its input:
      the shape of the loop that builds the table. */
  lemma {:induction false} ListedEntriesSnoc(raw: seq<RawPrice>, x: RawPrice)
    ensures ListedEntries(raw + [x]) == ListedEntries(raw) + (if Listable(x) then [Normalised(x)] else [])
  {
    if raw != [] {
      assert (raw + [x])[1..] == raw[1..] + [x];
      ListedEntriesSnoc(raw[1..], x);
    }
  }

  /** The table built from the legacy fields, "unidade", "caixa", "palete" in
      that order, each present exactly when its field is. */
  function LegacyEntries(p: Product): (r: seq<PriceEntry>)
  {
    (if p.precoUnidade.Some? then [PriceEntry("unidade", p.precoUnidade.value, 1)] else []) +
    (if p.precoCaixa.Some? then [PriceEntry("caixa", p.precoCaixa.value, 1)] else []) +
    (if p.precoPalete.Some? then [PriceEntry("palete", p.precoPalete.value, 1)] else [])
  }

  /** The normalised price table: the listed entries, or the legacy table
      only when no stored entry qualifies. */
  function PriceList(p: Product): (r: seq<PriceEntry>)
  {
    var listed := ListedEntries(p.precos);
    if listed != [] then listed else LegacyEntries(p)
  }

  /** What the legacy table holds: one entry per legacy field present, with
      that field's price and a package size of 1, units in the fixed order. */
  lemma LegacyEntriesShape(p: Product)
    ensures |LegacyEntries(p)| <= 3
    ensures forall e :: e in LegacyEntries(p) ==>
              e.unidade in LegacyUnits && LegacyPrice(p, e.unidade) == Some(e.preco) && e.quantidadeUnidades == 1
    ensures forall u :: u in LegacyUnits && LegacyPrice(p, u).Some? ==>
              PriceEntry(u, LegacyPrice(p, u).value, 1) in LegacyEntries(p)
    ensures forall i, j :: 0 <= i < j < |LegacyEntries(p)| ==>
              IndexOf(LegacyUnits, LegacyEntries(p)[i].unidade) < IndexOf(LegacyUnits, LegacyEntries(p)[j].unidade)
  {
    var table := LegacyEntries(p);
    forall i, j | 0 <= i < j < |table|
      ensures IndexOf(LegacyUnits, table[i].unidade) < IndexOf(LegacyUnits, table[j].unidade)
    {
      LegacyRanks();
      LegacyUnitAt(p, i);
      LegacyUnitAt(p, j);
    }
  }

  /** The position of each legacy unit in the fixed order. */
  lemma LegacyRanks()
    ensures IndexOf(LegacyUnits, "unidade") == 0
    ensures IndexOf(LegacyUnits, "caixa") == 1
    ensures IndexOf(LegacyUnits, "palete") == 2
  {
    assert LegacyUnits[0] == "unidade" && LegacyUnits[1] == "caixa" && LegacyUnits[2] == "palete";
  }

  /** Entry `i` of the legacy table: "unidade" first when present, then
      "caixa" when present, then "palete". */
  lemma LegacyUnitAt(p: Product, i: nat)
    requires i < |LegacyEntries(p)|
    ensures var before := (if p.precoUnidade.Some? then 1 else 0) + (if p.precoCaixa.Some? then 1 else 0);
      LegacyEntries(p)[i].unidade ==
        if p.precoUnidade.Some? && i == 0 then "unidade"
        else if i < before then "caixa"
        else "palete"
  {
  }

  /** The table falls back to the legacy prices exactly when no stored entry
      has both a unit and a price; every entry it shows has a unit and a
      package size of at least 1. */
  lemma PriceListSource(p: Product)
    ensures (exists k :: 0 <= k < |p.precos| && Listable(p.precos[k])) ==> PriceList(p) == ListedEntries(p.precos)
    ensures (forall k :: 0 <= k < |p.precos| ==> !Listable(p.precos[k])) ==> PriceList(p) == LegacyEntries(p)
    ensures forall e :: e in PriceList(p) ==> e.unidade != "" && e.quantidadeUnidades >= 1
  {
    LegacyEntriesShape(p);
  }

  /** The price the table shows first for a unit (the local `_find_preco`). */
  function FirstPriceFor(precos: seq<PriceEntry>, unidade: string): (r: Option<nat>)
    ensures r.None? <==> forall k :: 0 <= k < |precos| ==> precos[k].unidade != unidade
    ensures r.Some? ==> exists k :: 0 <= k < |precos| && precos[k].unidade == unidade && precos[k].preco == r.value &&
                                    forall j :: 0 <= j < k ==> precos[j].unidade != unidade
  {
    if precos == [] then None
    else if precos[0].unidade == unidade then Some(precos[0].preco)
    else
      var r := FirstPriceFor(precos[1..], unidade);
      assert forall k :: 1 <= k < |precos| ==> precos[k] == precos[1..][k - 1];
      if r.Some? then
        ghost var k :| 0 <= k < |precos[1..]| && precos[1..][k].unidade == unidade && precos[1..][k].preco == r.value &&
                       forall j :: 0 <= j < k ==> precos[1..][j].unidade != unidade;
        assert precos[k + 1].unidade == unidade;
        r
      else r
  }

  /** The first listed price for a non-empty unit is the price of the first
      stored entry that prices it. */
  lemma {:induction false} ListedFirstPrice(raw: seq<RawPrice>, u: string)
    requires u != ""
    ensures FirstPriceFor(ListedEntries(raw), u) ==
              (var i := FirstPricedEntry(raw, u); if i < |raw| then Some(raw[i].preco.value) else None)
  {
    if raw != [] {
      ListedFirstPrice(raw[1..], u);
      var rest := ListedEntries(raw[1..]);
      var table := if Listable(raw[0]) then [Normalised(raw[0])] + rest else rest;
      assert ListedEntries(raw) == table;
      if !PricedFor(raw[0], u) {
        var i := FirstPricedEntry(raw[1..], u);
        assert FirstPricedEntry(raw, u) == 1 + i;
        if i < |raw[1..]| {
          assert raw[1 + i] == raw[1..][i];
        }
        if Listable(raw[0]) {
          assert table[1..] == rest;
        }
      }
    }
  }

  /** Whenever the price table shows a unit, the cart charges the price the
      table shows first for it: the resolver and the table agree. */
  lemma CartPriceMatchesTable(p: Product, u: string)
    requires u != ""
    requires exists e :: e in PriceList(p) && e.unidade == u
    ensures UnitPrice(p, u) == Ok(FirstPriceFor(PriceList(p), u).value)
  {
    var listed := ListedEntries(p.precos);
    var i := FirstPricedEntry(p.precos, u);
    var e :| e in PriceList(p) && e.unidade == u;
    if listed != [] {
      ListedFirstPrice(p.precos, u);
      assert PriceList(p) == listed;
      var k :| 0 <= k < |listed| && listed[k] == e;
      assert FirstPriceFor(listed, u).Some?;
      assert i < |p.precos|;
    } else {
      assert PriceList(p) == LegacyEntries(p);
      assert forall k :: 0 <= k < |p.precos| ==> !PricedFor(p.precos[k], u) by {
        forall k | 0 <= k < |p.precos| ensures !PricedFor(p.precos[k], u) {
          assert !Listable(p.precos[k]);
        }
      }
      LegacyEntriesShape(p);
      assert u in LegacyUnits && LegacyPrice(p, u) == Some(e.preco);
      LegacyTablePrice(p, u);
    }
  }

  /** The legacy table prices each legacy unit with its field. */
  lemma LegacyTablePrice(p: Product, u: string)
    requires u in LegacyUnits
    ensures FirstPriceFor(LegacyEntries(p), u) == LegacyPrice(p, u)
  {
    LegacyEntriesShape(p);
    var found := FirstPriceFor(LegacyEntries(p), u);
    if found.Some? {
      var k :| 0 <= k < |LegacyEntries(p)| && LegacyEntries(p)[k].unidade == u && LegacyEntries(p)[k].preco == found.value;
      assert LegacyEntries(p)[k] in LegacyEntries(p);
    }
  }
}
