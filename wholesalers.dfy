/** Wholesaler documents as the retailer side reads them: the display name,
    the minimum order value and the payment terms on offer
    (`_normalize_condicoes_pagamento`). */
module Wholesalers {
  import opened Common
  import opened Text

  /** A wholesaler document. `pedidoMinimo` is in cents; None when the field
      is absent. `condicoesPagamento` is empty when the field is missing,
      null or an empty list (the three read alike). */
  datatype Wholesaler = Wholesaler(
    id: string,
    nomeFantasia: Option<string>,
    razaoSocial: Option<string>,
    nome: Option<string>,
    condicoesPagamento: seq<string>,
    pedidoMinimo: Option<nat>)

  /** The cash payment term, offered by every wholesaler. */
  const AVista: string := "A VISTA"

  /** The minimum order value when the wholesaler sets none: 150.00. */
  const DefaultMinimumOrder: nat := 15000

  /** `nome_fantasia or razao_social or nome`. */
  function DisplayName(w: Wholesaler): (r: Option<string>)
    ensures r == w.nomeFantasia || r == w.razaoSocial || r == w.nome
    ensures Filled(r) <==> Filled(w.nomeFantasia) || Filled(w.razaoSocial) || Filled(w.nome)
    ensures Filled(w.nomeFantasia) ==> r == w.nomeFantasia
    ensures !Filled(w.nomeFantasia) && Filled(w.razaoSocial) ==> r == w.razaoSocial
  {
    if Filled(w.nomeFantasia) then w.nomeFantasia
    else if Filled(w.razaoSocial) then w.razaoSocial
    else w.nome
  }

  /** `pedido_minimo`, defaulting to 150.00. */
  function MinimumOrder(w: Wholesaler): nat
  {
    if w.pedidoMinimo.Some? then w.pedidoMinimo.value else DefaultMinimumOrder
  }

  /** The canonical forms of the labels, blanks dropped, each kept at its
      first occurrence: the list the normaliser's loop accumulates. */
  function SeenTerms(raw: seq<string>): seq<string>
  {
    if raw == [] then []
    else
      var acc := SeenTerms(raw[..|raw| - 1]);
      var v := Canonical(raw[|raw| - 1]);
      if v != "" && v !in acc then acc + [v] else acc
  }

  lemma SeenTermsSnoc(raw: seq<string>, x: string)
    ensures SeenTerms(raw + [x]) ==
              (var v := Canonical(x); if v != "" && v !in SeenTerms(raw) then SeenTerms(raw) + [v] else SeenTerms(raw))
  {
    assert (raw + [x])[..|raw + [x]| - 1] == raw;
  }

  /** Every accumulated term is a non-blank canonical label, and none repeats. */
  lemma {:induction false} SeenTermsCanonical(raw: seq<string>)
    ensures forall t :: t in SeenTerms(raw) ==> t != "" && Canonical(t) == t
    ensures NoDuplicates(SeenTerms(raw))
  {
    if raw != [] {
      var p := SeenTerms(raw[..|raw| - 1]);
      var v := Canonical(raw[|raw| - 1]);
      SeenTermsCanonical(raw[..|raw| - 1]);
      if v != "" && v !in p {
        var d := p + [v];
        assert SeenTerms(raw) == d;
        CanonicalIdempotent(raw[|raw| - 1]);
        forall t | t in d ensures t != "" && Canonical(t) == t {
          if t != v {
            assert t in p;
          }
        }
        NoDuplicatesSnoc(p, v);
      } else {
        assert SeenTerms(raw) == p;
      }
    }
  }

  /** The accumulated terms hold the canonical form of every non-blank label... */
  lemma {:induction false} SeenTermsComplete(raw: seq<string>, k: nat)
    requires k < |raw| && Canonical(raw[k]) != ""
    ensures Canonical(raw[k]) in SeenTerms(raw)
  {
    var p := raw[..|raw| - 1];
    if k < |raw| - 1 {
      assert raw[k] == p[k];
      SeenTermsComplete(p, k);
    }
  }

  /** ... and nothing else. */
  lemma {:induction false} SeenTermsSound(raw: seq<string>, t: string)
    requires t in SeenTerms(raw)
    ensures exists k :: 0 <= k < |raw| && Canonical(raw[k]) == t
  {
    var p := raw[..|raw| - 1];
    if t in SeenTerms(p) {
      SeenTermsSound(p, t);
      var k :| 0 <= k < |p| && Canonical(p[k]) == t;
      assert raw[k] == p[k];
    }
  }

  /** "A VISTA" is already in canonical form. */
  lemma AVistaCanonical()
    ensures Strip(AVista) == AVista && Canonical(AVista) == AVista
  {
    assert AVista[0] == 'A' && AVista[|AVista| - 1] == 'A';
    StripTrimmed(AVista);
    assert forall k :: 0 <= k < |AVista| ==> UpperChar(AVista[k]) == AVista[k];
  }

  /** The payment terms a wholesaler offers: the stored labels (or just
      "A VISTA" when there are none), stripped, upper-cased, blanks dropped,
      duplicates dropped at their later occurrences, with "A VISTA" put
      first when it is not among them. */
  function OfferedTerms(raw: seq<string>): (r: seq<string>)
  {
    var d := SeenTerms(if raw == [] then [AVista] else raw);
    if AVista in d then d else [AVista] + d
  }

  /** What the offered list guarantees: "A VISTA" is always offered, only
      canonical non-blank labels appear, none twice. */
  lemma OfferedTermsWellFormed(raw: seq<string>)
    ensures var r := OfferedTerms(raw);
      && AVista in r
      && NoDuplicates(r)
      && (forall t :: t in r ==> t != "" && Canonical(t) == t)
  {
    AVistaCanonical();
    var src := if raw == [] then [AVista] else raw;
    var d := SeenTerms(src);
    SeenTermsCanonical(src);
    if AVista !in d {
      var r := [AVista] + d;
      assert OfferedTerms(raw) == r;
      forall t | t in r ensures t != "" && Canonical(t) == t {
        if t != AVista {
          assert t in d;
        }
      }
      NoDuplicatesCons(AVista, d);
    } else {
      assert OfferedTerms(raw) == d;
    }
  }

  /** A term is accumulated exactly when it is the canonical form of some
      non-blank stored label. */
  lemma SeenTermsMembers(raw: seq<string>, t: string)
    ensures t in SeenTerms(raw) <==> exists k :: 0 <= k < |raw| && Canonical(raw[k]) == t && t != ""
  {
    if t in SeenTerms(raw) {
      SeenTermsSound(raw, t);
      SeenTermsCanonical(raw);
    }
    if exists k :: 0 <= k < |raw| && Canonical(raw[k]) == t && t != "" {
      var k :| 0 <= k < |raw| && Canonical(raw[k]) == t && t != "";
      SeenTermsComplete(raw, k);
    }
  }

  /** A label is offered exactly when it is "A VISTA" or the canonical form of
      a non-blank stored label; "A VISTA" heads the list when the wholesaler
      did not store it. */
  lemma OfferedTermsMembers(raw: seq<string>, t: string)
    ensures t in OfferedTerms(raw) <==> t == AVista || exists k :: 0 <= k < |raw| && Canonical(raw[k]) == t && t != ""
    ensures AVista !in SeenTerms(raw) ==> OfferedTerms(raw)[0] == AVista
  {
    if raw == [] {
      AVistaCanonical();
      SeenTermsSnoc([], AVista);
      assert [] + [AVista] == [AVista];
      assert OfferedTerms(raw) == [AVista];
    } else {
      var d := SeenTerms(raw);
      SeenTermsMembers(raw, t);
      assert t in OfferedTerms(raw) <==> t == AVista || t in d by {
        if AVista !in d {
          assert OfferedTerms(raw) == [AVista] + d;
        } else {
          assert OfferedTerms(raw) == d;
        }
      }
    }
  }

  /** The canonical forms of the non-blank labels, in stored order, repeats
      included. */
  function CanonicalLabels(raw: seq<string>): seq<string>
  {
    if raw == [] then []
    else
      var p := CanonicalLabels(raw[..|raw| - 1]);
      var v := Canonical(raw[|raw| - 1]);
      if v != "" then p + [v] else p
  }

  /** The accumulated terms are the canonical non-blank labels with the
      repeats dropped, first occurrences kept in order (`Distinct`, whose
      order `DistinctFirstOccurrenceOrder` states). */
  lemma {:induction false} SeenTermsIsDistinct(raw: seq<string>)
    ensures SeenTerms(raw) == Distinct(CanonicalLabels(raw))
  {
    if raw != [] {
      var p := raw[..|raw| - 1];
      SeenTermsIsDistinct(p);
      var v := Canonical(raw[|raw| - 1]);
      if v != "" {
        DistinctSnoc(CanonicalLabels(p), v);
      }
    }
  }

  /** The offered list against a reference definition: the stored labels'
      canonical non-blank forms, each at its first occurrence, in stored
      order, with "A VISTA" put in front only when absent; a wholesaler that
      lists "A VISTA" (in any spacing or case) keeps its own order, and one
      with no labels offers "A VISTA" alone. */
  lemma OfferedTermsKeepOrder(raw: seq<string>)
    ensures raw == [] ==> OfferedTerms(raw) == [AVista]
    ensures raw != [] ==>
              var d := Distinct(CanonicalLabels(raw));
              OfferedTerms(raw) == if AVista in d then d else [AVista] + d
  {
    if raw == [] {
      AVistaCanonical();
      SeenTermsSnoc([], AVista);
      assert [] + [AVista] == [AVista];
    } else {
      SeenTermsIsDistinct(raw);
    }
  }

  /** One turn of the normaliser's loop: an empty label is skipped, and any
      other label adds its canonical form unless that is blank or present. */
  lemma NormaliseStep(raw: seq<string>, i: nat)
    requires i < |raw|
    ensures SeenTerms(raw[..i + 1]) ==
              (var v := Canonical(raw[i]);
               if raw[i] != "" && v != "" && v !in SeenTerms(raw[..i]) then SeenTerms(raw[..i]) + [v]
               else SeenTerms(raw[..i]))
  {
    assert raw[..i + 1] == raw[..i] + [raw[i]];
    SeenTermsSnoc(raw[..i], raw[i]);
    if raw[i] == "" {
      CanonicalOfEmpty();
    }
  }

  /** `_normalize_condicoes_pagamento`, as the loop the service runs. */
  method NormalizePaymentTerms(w: Wholesaler) returns (condicoes: seq<string>)
    ensures condicoes == OfferedTerms(w.condicoesPagamento)
  {
    var raw := if w.condicoesPagamento == [] then [AVista] else w.condicoesPagamento;
    condicoes := [];
    var i := 0;
    while i < |raw|
      invariant 0 <= i <= |raw|
      invariant condicoes == SeenTerms(raw[..i])
    {
      var condicao := raw[i];
      NormaliseStep(raw, i);
      if condicao != "" {
        var valor := Canonical(condicao);
        if valor != "" && valor !in condicoes {
          condicoes := condicoes + [valor];
        }
      }
      i := i + 1;
    }
    assert raw[..i] == raw;
    if AVista !in condicoes {
      condicoes := [AVista] + condicoes;
    }
  }
}
