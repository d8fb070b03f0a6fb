/** The product read service seen by retailers (`ProdutoLeituraService`):
    the paged listing over the shared catalogue, the single-product lookup and
    the response every product is turned into. */
module Products {
  import opened Common
  import opened Catalog
  import opened Wholesalers

  /** The page size used when the caller asks for less than one item. */
  const DefaultPageSize: nat := 20

  /** The clamped paging inputs and the number of matches skipped. */
  datatype Paging = Paging(page: nat, pageSize: nat, skip: nat)

  /** `page < 1` becomes 1, `page_size < 1` becomes 20; the pages before the
      requested one are skipped whole. */
  function ClampPaging(page: int, pageSize: int): (r: Paging)
    ensures r.page >= 1 && r.pageSize >= 1
    ensures page >= 1 ==> r.page == page
    ensures page < 1 ==> r.page == 1
    ensures pageSize >= 1 ==> r.pageSize == pageSize
    ensures pageSize < 1 ==> r.pageSize == DefaultPageSize
    ensures r.skip == (r.page - 1) * r.pageSize
  {
    var p := if page < 1 then 1 else page;
    var s := if pageSize < 1 then DefaultPageSize else pageSize;
    Paging(p, s, (p - 1) * s)
  }

  /** `ceil(total / page_size) if page_size else 1`. */
  function TotalPages(total: nat, pageSize: nat): nat
  {
    if pageSize == 0 then 1 else (total + pageSize - 1) / pageSize
  }

  /** The page count is the ceiling of total over page size: enough pages
      for every match, and the last page is not empty; no pages when there
      are no matches. */
  lemma TotalPagesIsCeiling(total: nat, pageSize: nat)
    requires pageSize >= 1
    ensures total <= TotalPages(total, pageSize) * pageSize
    ensures TotalPages(total, pageSize) >= 1 ==> (TotalPages(total, pageSize) - 1) * pageSize < total
    ensures TotalPages(total, pageSize) == 0 <==> total == 0
  {
    var n := total + pageSize - 1;
    var q := n / pageSize;
    var m := n % pageSize;
    assert n == q * pageSize + m && 0 <= m < pageSize;
    assert q * pageSize == total + pageSize - 1 - m;
    if q >= 1 {
      assert (q - 1) * pageSize == q * pageSize - pageSize;
    }
    if total == 0 {
      assert q * pageSize < pageSize;
    }
  }

  /** The products of the catalogue whose wholesaler is one of `ids`, in
      catalogue order. */
  function OfWholesalers(catalog: seq<Product>, ids: seq<string>): (r: seq<Product>)
    ensures |r| <= |catalog|
    ensures forall p :: p in r <==> p in catalog && p.atacadistaId.Some? && p.atacadistaId.value in ids
  {
    if catalog == [] then []
    else
      var rest := OfWholesalers(catalog[1..], ids);
      var p := catalog[0];
      if p.atacadistaId.Some? && p.atacadistaId.value in ids then [p] + rest else rest
  }

  /** The filter keeps catalogue order: a product added at the end of the
      catalogue shows up at the end of the matches, or not at all. */
  lemma {:induction false} OfWholesalersSnoc(catalog: seq<Product>, p: Product, ids: seq<string>)
    ensures OfWholesalers(catalog + [p], ids) ==
              OfWholesalers(catalog, ids) + (if p.atacadistaId.Some? && p.atacadistaId.value in ids then [p] else [])
  {
    if catalog != [] {
      assert (catalog + [p])[1..] == catalog[1..] + [p];
      OfWholesalersSnoc(catalog[1..], p, ids);
    }
  }

  /** A product as the API returns it; `atacadistaId` is "" when the product
      has none. */
  datatype ProductView = ProductView(
    id: string,
    codigo: string,
    descricao: string,
    imagemBase64: Option<string>,
    estoque: int,
    precos: seq<PriceEntry>,
    precoUnidade: Option<nat>,
    precoCaixa: Option<nat>,
    precoPalete: Option<nat>,
    atacadistaId: string,
    atacadistaNome: Option<string>)

  /** `found or stored`: a table price of 0 counts as missing. */
  function ShownPrice(found: Option<nat>, stored: Option<nat>): Option<nat>
  {
    if found.Some? && found.value != 0 then found else stored
  }

  /** The wholesaler key a product is looked up under. */
  function WholesalerKey(p: Product): string
  {
    if Filled(p.atacadistaId) then p.atacadistaId.value else ""
  }

  /** `_to_response`: `names` holds the wholesaler documents the caller
      loaded, by id. */
  function View(p: Product, names: map<string, Wholesaler>): ProductView
  {
    var precos := PriceList(p);
    var key := WholesalerKey(p);
    ProductView(
      p.id, p.codigo, p.descricao, p.imagemBase64, p.estoque, precos,
      ShownPrice(FirstPriceFor(precos, "unidade"), p.precoUnidade),
      ShownPrice(FirstPriceFor(precos, "caixa"), p.precoCaixa),
      ShownPrice(FirstPriceFor(precos, "palete"), p.precoPalete),
      key,
      if key in names then DisplayName(names[key]) else None)
  }

  /** The top-level price the response shows for a legacy unit. */
  function ShownPriceFor(v: ProductView, u: string): Option<nat>
  {
    if u == "unidade" then v.precoUnidade
    else if u == "caixa" then v.precoCaixa
    else if u == "palete" then v.precoPalete
    else None
  }

  /** The top-level price of a legacy unit is the table's price for it,
      unless that is missing or zero, then the legacy field. */
  lemma ShownPriceOfView(p: Product, names: map<string, Wholesaler>, u: string)
    requires u in LegacyUnits
    ensures ShownPriceFor(View(p, names), u) == ShownPrice(FirstPriceFor(PriceList(p), u), LegacyPrice(p, u))
  {
  }

  /** A product without a usable stored entry shows its legacy fields as they
      are, both in the table and at the top level. */
  lemma LegacyProductShowsLegacyFields(p: Product, names: map<string, Wholesaler>, u: string)
    requires forall k :: 0 <= k < |p.precos| ==> !Listable(p.precos[k])
    requires u in LegacyUnits
    ensures View(p, names).precos == LegacyEntries(p)
    ensures ShownPriceFor(View(p, names), u) == LegacyPrice(p, u)
  {
    PriceListSource(p);
    LegacyTablePrice(p, u);
    ShownPriceOfView(p, names, u);
  }

  /** The table's price for a legacy unit: the first stored entry that prices
      it, else none when other stored entries are listed, else the field. */
  lemma TablePriceFor(p: Product, u: string)
    requires u in LegacyUnits
    ensures FirstPriceFor(PriceList(p), u) ==
              (var i := FirstPricedEntry(p.precos, u);
               if i < |p.precos| then Some(p.precos[i].preco.value)
               else if ListedEntries(p.precos) == [] then LegacyPrice(p, u)
               else None)
  {
    ListedFirstPrice(p.precos, u);
    var i := FirstPricedEntry(p.precos, u);
    if i < |p.precos| {
      assert Listable(p.precos[i]);
      assert Normalised(p.precos[i]) in ListedEntries(p.precos);
    } else if ListedEntries(p.precos) == [] {
      LegacyTablePrice(p, u);
    }
  }

  /** The top-level price of a legacy unit agrees with the price the cart
      charges for it: a unit the cart cannot price shows none, and a
      non-zero cart price is the price shown. */
  lemma ShownPriceMatchesCart(p: Product, names: map<string, Wholesaler>, u: string)
    requires u in LegacyUnits
    ensures UnitPrice(p, u).Err? ==> ShownPriceFor(View(p, names), u).None?
    ensures UnitPrice(p, u).Ok? && UnitPrice(p, u).value != 0 ==>
              ShownPriceFor(View(p, names), u) == Some(UnitPrice(p, u).value)
  {
    TablePriceFor(p, u);
    ShownPriceOfView(p, names, u);
  }

  /** The response names the product's wholesaler exactly when its document
      was loaded, by the first filled of trade name, company name and name. */
  lemma ViewName(p: Product, names: map<string, Wholesaler>)
    ensures WholesalerKey(p) !in names ==> View(p, names).atacadistaNome.None?
    ensures WholesalerKey(p) in names ==> View(p, names).atacadistaNome == DisplayName(names[WholesalerKey(p)])
    ensures View(p, names).atacadistaId == (if Filled(p.atacadistaId) then p.atacadistaId.value else "")
  {
  }

  /** One page of the listing. */
  datatype ProductPage = ProductPage(items: seq<ProductView>, total: nat, page: nat, pageSize: nat, totalPages: nat)

  /** The wholesalers whose products are listed: the requested one, or every
      active one. */
  function ListedWholesalers(activeIds: seq<string>, atacadistaId: Option<string>): seq<string>
  {
    if Filled(atacadistaId) then [atacadistaId.value] else activeIds
  }

  /** The matches a page shows: at most `pageSize` of them, from `skip` on. */
  function Window(matches: seq<Product>, skip: nat, pageSize: nat): (r: seq<Product>)
    ensures |r| <= pageSize
    ensures forall k :: 0 <= k < |r| ==> skip + k < |matches| && r[k] == matches[skip + k]
    ensures skip < |matches| ==> |r| == (if |matches| - skip < pageSize then |matches| - skip else pageSize)
  {
    if skip >= |matches| then []
    else if skip + pageSize >= |matches| then matches[skip..]
    else matches[skip..skip + pageSize]
  }

  /** The response items for the documents of a page, one view each. */
  function Views(docs: seq<Product>, names: map<string, Wholesaler>): seq<ProductView>
  {
    seq(|docs|, k requires 0 <= k < |docs| => View(docs[k], names))
  }

  /** `listar_produtos`: `activeIds` are the active wholesalers, `names` the
      wholesaler documents loaded for the page. The description query is not
      part of this model. */
  function ListProducts(catalog: seq<Product>, activeIds: seq<string>, names: map<string, Wholesaler>,
                        page: int, pageSize: int, atacadistaId: Option<string>): ProductPage
  {
    var paging := ClampPaging(page, pageSize);
    if activeIds == [] || (Filled(atacadistaId) && atacadistaId.value !in activeIds) then
      ProductPage([], 0, paging.page, paging.pageSize, 1)
    else
      var matches := OfWholesalers(catalog, ListedWholesalers(activeIds, atacadistaId));
      var docs := Window(matches, paging.skip, paging.pageSize);
      ProductPage(Views(docs, names),
                  |matches|, paging.page, paging.pageSize, TotalPages(|matches|, paging.pageSize))
  }

  /** With no active wholesaler, or an inactive one requested, the listing
      is one empty page. */
  lemma ListingEmptyWhenInactive(catalog: seq<Product>, activeIds: seq<string>, names: map<string, Wholesaler>,
                                 page: int, pageSize: int, atacadistaId: Option<string>)
    requires activeIds == [] || (Filled(atacadistaId) && atacadistaId.value !in activeIds)
    ensures var r := ListProducts(catalog, activeIds, names, page, pageSize, atacadistaId);
      r.items == [] && r.total == 0 && r.totalPages == 1 && r.page >= 1 && r.pageSize >= 1
  {
  }

  /** Otherwise the page shows, in catalogue order, the products of the
      listed wholesalers from the skipped count on: it is empty or the views
      of the matches that follow the skipped ones. */
  lemma ListingShowsItsWindow(catalog: seq<Product>, activeIds: seq<string>, names: map<string, Wholesaler>,
                              page: int, pageSize: int, atacadistaId: Option<string>)
    requires activeIds != [] && (Filled(atacadistaId) ==> atacadistaId.value in activeIds)
    ensures var r := ListProducts(catalog, activeIds, names, page, pageSize, atacadistaId);
      var matches := OfWholesalers(catalog, ListedWholesalers(activeIds, atacadistaId));
      var skip := ClampPaging(page, pageSize).skip;
      r.items == [] || (skip + |r.items| <= |matches| && r.items == Views(matches[skip..skip + |r.items|], names))
  {
    var paging := ClampPaging(page, pageSize);
    var matches := OfWholesalers(catalog, ListedWholesalers(activeIds, atacadistaId));
    var items := ListProducts(catalog, activeIds, names, page, pageSize, atacadistaId).items;
    WindowIsSlice(matches, paging.skip, paging.pageSize, names);
    assert items == Views(Window(matches, paging.skip, paging.pageSize), names);
    if items != [] {
      assert items == Views(matches[paging.skip..paging.skip + |items|], names);
    }
  }

  /** The views of a non-empty window are the views of the slice of the
      matches it starts at. */
  lemma WindowIsSlice(matches: seq<Product>, skip: nat, pageSize: nat, names: map<string, Wholesaler>)
    ensures var items := Views(Window(matches, skip, pageSize), names);
      items == [] || (skip + |items| <= |matches| && items == Views(matches[skip..skip + |items|], names))
  {
    var docs := Window(matches, skip, pageSize);
    if docs != [] {
      assert docs == matches[skip..skip + |docs|];
    }
  }

  /** A page holds at most a page of matches, and one that starts inside
      the matches is full or holds every match left. */
  lemma ListingFillsPage(catalog: seq<Product>, activeIds: seq<string>, names: map<string, Wholesaler>,
                         page: int, pageSize: int, atacadistaId: Option<string>)
    requires activeIds != [] && (Filled(atacadistaId) ==> atacadistaId.value in activeIds)
    ensures var r := ListProducts(catalog, activeIds, names, page, pageSize, atacadistaId);
      var matches := OfWholesalers(catalog, ListedWholesalers(activeIds, atacadistaId));
      var skip := ClampPaging(page, pageSize).skip;
      && |r.items| <= r.pageSize
      && (skip < |matches| ==> |r.items| == (if |matches| - skip < r.pageSize then |matches| - skip else r.pageSize))
  {
    var paging := ClampPaging(page, pageSize);
    var matches := OfWholesalers(catalog, ListedWholesalers(activeIds, atacadistaId));
    var r := ListProducts(catalog, activeIds, names, page, pageSize, atacadistaId);
    assert r.items == Views(Window(matches, paging.skip, paging.pageSize), names) && r.pageSize == paging.pageSize;
  }

  /** The total counts every product of the listed wholesalers, all of them
      active, and the page count is the ceiling of that total over the size. */
  lemma ListingCountsAllMatches(catalog: seq<Product>, activeIds: seq<string>, names: map<string, Wholesaler>,
                                page: int, pageSize: int, atacadistaId: Option<string>)
    requires activeIds != [] && (Filled(atacadistaId) ==> atacadistaId.value in activeIds)
    ensures var r := ListProducts(catalog, activeIds, names, page, pageSize, atacadistaId);
      var matches := OfWholesalers(catalog, ListedWholesalers(activeIds, atacadistaId));
      && r.total == |matches|
      && (forall p :: p in matches ==> p.atacadistaId.Some? && p.atacadistaId.value in activeIds)
      && r.pageSize >= 1
      && r.totalPages == TotalPages(r.total, r.pageSize)
  {
    MatchesAreActive(catalog, activeIds, atacadistaId);
  }

  lemma MatchesAreActive(catalog: seq<Product>, activeIds: seq<string>, atacadistaId: Option<string>)
    requires Filled(atacadistaId) ==> atacadistaId.value in activeIds
    ensures forall p :: p in OfWholesalers(catalog, ListedWholesalers(activeIds, atacadistaId)) ==>
              p.atacadistaId.Some? && p.atacadistaId.value in activeIds
  {
  }

  /** Position `j` lies `j % size` places after the start of page `j / size + 1`. */
  lemma PositionOnPage(j: nat, pageSize: nat)
    requires pageSize >= 1
    ensures ClampPaging(j / pageSize + 1, pageSize).skip + j % pageSize == j
    ensures j % pageSize < pageSize
  {
    assert ClampPaging(j / pageSize + 1, pageSize).skip == (j / pageSize) * pageSize;
  }

  /** Every match is shown on exactly the page its position puts it on:
      match `j` is item `j % size` of page `j / size + 1`. */
  lemma EveryMatchOnItsPage(catalog: seq<Product>, activeIds: seq<string>,
                                               names: map<string, Wholesaler>, pageSize: nat,
                                               atacadistaId: Option<string>, j: nat)
    requires activeIds != [] && (Filled(atacadistaId) ==> atacadistaId.value in activeIds)
    requires pageSize >= 1
    requires j < |OfWholesalers(catalog, ListedWholesalers(activeIds, atacadistaId))|
    ensures var r := ListProducts(catalog, activeIds, names, j / pageSize + 1, pageSize, atacadistaId);
      j % pageSize < |r.items| &&
      r.items[j % pageSize] == View(OfWholesalers(catalog, ListedWholesalers(activeIds, atacadistaId))[j], names)
  {
    PositionOnPage(j, pageSize);
    ItemOnPage(catalog, activeIds, names, j / pageSize + 1, pageSize, atacadistaId, j % pageSize);
  }

  /** Item `off` of a page is the match `off` places after the page's skip. */
  lemma ItemOnPage(catalog: seq<Product>, activeIds: seq<string>, names: map<string, Wholesaler>,
                   page: int, pageSize: nat, atacadistaId: Option<string>, off: nat)
    requires activeIds != [] && (Filled(atacadistaId) ==> atacadistaId.value in activeIds)
    requires pageSize >= 1 && off < pageSize
    requires ClampPaging(page, pageSize).skip + off < |OfWholesalers(catalog, ListedWholesalers(activeIds, atacadistaId))|
    ensures var r := ListProducts(catalog, activeIds, names, page, pageSize, atacadistaId);
      off < |r.items| &&
      r.items[off] == View(OfWholesalers(catalog, ListedWholesalers(activeIds, atacadistaId))[ClampPaging(page, pageSize).skip + off], names)
  {
    var paging := ClampPaging(page, pageSize);
    var matches := OfWholesalers(catalog, ListedWholesalers(activeIds, atacadistaId));
    WindowItem(matches, paging.skip, paging.pageSize, names, off);
    assert ListProducts(catalog, activeIds, names, page, pageSize, atacadistaId).items ==
           Views(Window(matches, paging.skip, paging.pageSize), names);
  }

  /** Item `off` of the views of a window is the view of the match `off`
      places after its start. */
  lemma WindowItem(matches: seq<Product>, skip: nat, pageSize: nat, names: map<string, Wholesaler>, off: nat)
    requires off < pageSize && skip + off < |matches|
    ensures var items := Views(Window(matches, skip, pageSize), names);
      off < |items| && items[off] == View(matches[skip + off], names)
  {
    var docs := Window(matches, skip, pageSize);
    assert off < |docs| && docs[off] == matches[skip + off];
  }

  /** `obter_produto`: no product, or a product whose wholesaler document is
      not found, gives nothing. */
  function GetProduct(catalog: map<string, Product>, wholesalers: map<string, Wholesaler>, produtoId: string)
    : Option<ProductView>
  {
    if produtoId !in catalog then None
    else
      var p := catalog[produtoId];
      if Filled(p.atacadistaId) then
        var w := p.atacadistaId.value;
        if w !in wholesalers then None
        else Some(View(p, map[w := wholesalers[w]]))
      else Some(View(p, map[]))
  }

  /** A product is visible exactly when it exists and has no wholesaler or a
      wholesaler that is found; it is then named after that wholesaler. */
  lemma GetProductVisibility(catalog: map<string, Product>, wholesalers: map<string, Wholesaler>, produtoId: string)
    ensures var r := GetProduct(catalog, wholesalers, produtoId);
      && (r.Some? <==> produtoId in catalog &&
                       (Filled(catalog[produtoId].atacadistaId) ==> catalog[produtoId].atacadistaId.value in wholesalers))
      && (r.Some? && Filled(catalog[produtoId].atacadistaId) ==>
            r.value.atacadistaNome == DisplayName(wholesalers[catalog[produtoId].atacadistaId.value]))
      && (r.Some? && !Filled(catalog[produtoId].atacadistaId) ==> r.value.atacadistaNome.None?)
      && (r.Some? ==> r.value.id == catalog[produtoId].id && r.value.precos == PriceList(catalog[produtoId]))
  {
  }

  /** The loops that build the price table: stored entries first, the
      legacy fields only when none qualified. */
  method BuildPriceTable(p: Product) returns (precos: seq<PriceEntry>)
    ensures precos == PriceList(p)
  {
    precos := [];
    var i := 0;
    while i < |p.precos|
      invariant 0 <= i <= |p.precos|
      invariant precos == ListedEntries(p.precos[..i])
    {
      var item := p.precos[i];
      assert p.precos[..i + 1] == p.precos[..i] + [item];
      ListedEntriesSnoc(p.precos[..i], item);
      if item.unidade.Some? && item.unidade.value != "" && item.preco.Some? {
        precos := precos + [PriceEntry(item.unidade.value, item.preco.value, UnitsPerPackage(item))];
      }
      i := i + 1;
    }
    assert p.precos[..i] == p.precos;
    if precos == [] {
      if p.precoUnidade.Some? {
        precos := precos + [PriceEntry("unidade", p.precoUnidade.value, 1)];
      }
      if p.precoCaixa.Some? {
        precos := precos + [PriceEntry("caixa", p.precoCaixa.value, 1)];
      }
      if p.precoPalete.Some? {
        precos := precos + [PriceEntry("palete", p.precoPalete.value, 1)];
      }
    }
  }

  /** The local `_find_preco`: a scan for the first entry of the unit. */
  method FindPrice(precos: seq<PriceEntry>, unidade: string) returns (r: Option<nat>)
    ensures r == FirstPriceFor(precos, unidade)
  {
    var i := 0;
    while i < |precos|
      invariant 0 <= i <= |precos|
      invariant forall k :: 0 <= k < i ==> precos[k].unidade != unidade
    {
      if precos[i].unidade == unidade {
        FirstPriceAt(precos, unidade, i);
        return Some(precos[i].preco);
      }
      i := i + 1;
    }
    return None;
  }

  /** The first entry of a unit is the one the search returns. */
  lemma {:induction false} FirstPriceAt(precos: seq<PriceEntry>, unidade: string, i: nat)
    requires i < |precos| && precos[i].unidade == unidade
    requires forall k :: 0 <= k < i ==> precos[k].unidade != unidade
    ensures FirstPriceFor(precos, unidade) == Some(precos[i].preco)
  {
    if i > 0 {
      assert forall k :: 0 <= k < i - 1 ==> precos[1..][k] == precos[k + 1];
      FirstPriceAt(precos[1..], unidade, i - 1);
    }
  }

  /** `_to_response`, as the service computes it. */
  method ToResponse(p: Product, names: map<string, Wholesaler>) returns (v: ProductView)
    ensures v == View(p, names)
  {
    var atacadistaId := if Filled(p.atacadistaId) then p.atacadistaId.value else "";
    var atacadistaNome: Option<string> := None;
    if atacadistaId in names {
      atacadistaNome := DisplayName(names[atacadistaId]);
    }
    var precos := BuildPriceTable(p);
    var unidade := FindPrice(precos, "unidade");
    var caixa := FindPrice(precos, "caixa");
    var palete := FindPrice(precos, "palete");
    v := ProductView(p.id, p.codigo, p.descricao, p.imagemBase64, p.estoque, precos,
                     ShownPrice(unidade, p.precoUnidade), ShownPrice(caixa, p.precoCaixa),
                     ShownPrice(palete, p.precoPalete), atacadistaId, atacadistaNome);
  }
}
