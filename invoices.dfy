/** The header relabelling applied to a converted invoice table, and the plain-text form
    of the lookup table that drives it: one `key: label` line per entry. */
module Invoices {

  import opened Results
  import opened Text
  import opened Dicts

  datatype TableError = ValueError

  /** `DEFAULT_LOOKUP_TABLE`: header signatures of the Italian electronic invoice, joined
      with `"|"`, and their short labels, in declaration order. */
  const DefaultLookupTable: Dict<string, string> := [
    ("DatiTrasmissione|IdTrasmittente|IdPaese", "Tras_Paese"),
    ("DatiTrasmissione|IdTrasmittente|IdCodice", "Tras_ID"),
    ("DatiTrasmissione|ProgressivoInvio", "Tras_prog"),
    ("DatiTrasmissione|FormatoTrasmissione", "Tras_form"),
    ("DatiTrasmissione|CodiceDestinatario", "Tras_dest"),
    ("CedentePrestatore|DatiAnagrafici|IdFiscaleIVA|IdPaese", "Forn_Paese"),
    ("CedentePrestatore|DatiAnagrafici|IdFiscaleIVA|IdCodice", "Forn_IVA"),
    ("CedentePrestatore|DatiAnagrafici|CodiceFiscale", "Forn_CF"),
    ("CedentePrestatore|DatiAnagrafici|Anagrafica|Denominazione", "Forn_Nome"),
    ("CedentePrestatore|DatiAnagrafici|Anagrafica|CodEORI", "Forn_CodEORI"),
    ("CedentePrestatore|DatiAnagrafici|RegimeFiscale", "Forn_Reg"),
    ("CedentePrestatore|Sede|Indirizzo", "Forn_Indirizzo"),
    ("CedentePrestatore|Sede|CAP", "Fonr_CAP"),
    ("CedentePrestatore|Sede|Comune", "Forn_Comune"),
    ("CedentePrestatore|Sede|Nazione", "Forn_Paese_ced"),
    ("CedentePrestatore|IscrizioneREA|Ufficio", "Forn_Provincia"),
    ("CedentePrestatore|IscrizioneREA|NumeroREA", "Forn_REA"),
    ("CedentePrestatore|IscrizioneREA|CapitaleSociale", "Forn_CS"),
    ("CedentePrestatore|IscrizioneREA|SocioUnico", "Forn_SU"),
    ("CedentePrestatore|IscrizioneREA|StatoLiquidazione", "Forn_SL"),
    ("CedentePrestatore|Contatti|Telefono", "Forn_tel"),
    ("CessionarioCommittente|DatiAnagrafici|IdFiscaleIVA|IdPaese", "Soc_Paese_an"),
    ("CessionarioCommittente|DatiAnagrafici|IdFiscaleIVA|IdCodice", "Soc_IVA"),
    ("CessionarioCommittente|DatiAnagrafici|Anagrafica|Denominazione", "Soc_Nome"),
    ("CessionarioCommittente|Sede|Indirizzo", "Soc_Indirizzo"),
    ("CessionarioCommittente|Sede|CAP", "Soc_CAP"),
    ("CessionarioCommittente|Sede|Comune", "Soc_Comune"),
    ("CessionarioCommittente|Sede|Nazione", "Soc_Paese"),
    ("DatiGenerali|DatiGeneraliDocumento|TipoDocumento", "Ft_tipo"),
    ("DatiGenerali|DatiGeneraliDocumento|Divisa", "Ft_currency"),
    ("DatiGenerali|DatiGeneraliDocumento|Data", "Ft_dt"),
    ("DatiGenerali|DatiGeneraliDocumento|Numero", "Ft_num"),
    ("DatiGenerali|DatiGeneraliDocumento|ImportoTotaleDocumento", "Ft_totale_doc"),
    ("DatiGenerali|DatiGeneraliDocumento|Causale", "Ft_causale"),
    ("DatiBeniServizi|DettaglioLinee|NumeroLinea", "Ft_linee"),
    ("DatiBeniServizi|DettaglioLinee|Descrizione", "Ft_linee_descr"),
    ("DatiBeniServizi|DettaglioLinee|PrezzoUnitario", "Ft_linee_prezzo_uni"),
    ("DatiBeniServizi|DettaglioLinee|PrezzoTotale", "Ft_linee_prezzo_tot"),
    ("DatiBeniServizi|DettaglioLinee|AliquotaIVA", "Ft_linee_IVAal"),
    ("DatiBeniServizi|DettaglioLinee|Natura", "Ft_linee_nat"),
    ("DatiBeniServizi|DatiRiepilogo|AliquotaIVA", "Ft_riep_IVAal"),
    ("DatiBeniServizi|DatiRiepilogo|Natura", "Ft_riep_nat"),
    ("DatiBeniServizi|DatiRiepilogo|ImponibileImporto", "Ft_riep_imponibile"),
    ("DatiBeniServizi|DatiRiepilogo|Imposta", "Ft_riep_imposta"),
    ("DatiBeniServizi|DatiRiepilogo|RiferimentoNormativo", "Ft_riep_law"),
    ("DatiPagamento|CondizioniPagamento", "Ft_cond_pag"),
    ("DatiPagamento|DettaglioPagamento|ModalitaPagamento", "Ft_mod_pag"),
    ("DatiPagamento|DettaglioPagamento|DataScadenzaPagamento", "Ft_dt_scad"),
    ("DatiPagamento|DettaglioPagamento|ImportoPagamento", "Ft_imp_pag"),
    ("DatiPagamento|DettaglioPagamento|IBAN", "Ft_IBAN"),
    ("DatiTrasmissione|ContattiTrasmittente|Telefono", "Ft_tel"),
    ("DatiTrasmissione|ContattiTrasmittente|Email", "Ft_mail"),
    ("DatiTrasmissione|PECDestinatario", "Ft_pec"),
    ("CedentePrestatore|Sede|Provincia", "Ft_Forn_prov"),
    ("CessionarioCommittente|Sede|Provincia", "Ft_prov_Soc"),
    ("DatiGenerali|DatiOrdineAcquisto|RiferimentoNumeroLinea", "Ft_linea_law"),
    ("DatiGenerali|DatiOrdineAcquisto|IdDocumento", "Ft_linea_ord"),
    ("DatiGenerali|DatiDDT|NumeroDDT", "Ft_linea_DDT"),
    ("DatiGenerali|DatiDDT|DataDDT", "Ft_linea_dt_DDT"),
    ("DatiGenerali|DatiDDT|RiferimentoNumeroLinea", "Ft_linea_rif"),
    ("DatiGenerali|DatiTrasporto|IndirizzoResa|Indirizzo", "Trasp_indirizzo"),
    ("DatiGenerali|DatiTrasporto|IndirizzoResa|CAP", "Trasp_CAP"),
    ("DatiGenerali|DatiTrasporto|IndirizzoResa|Comune", "Trasp_Comune"),
    ("DatiGenerali|DatiTrasporto|IndirizzoResa|Provincia", "Trasp_Prov"),
    ("DatiGenerali|DatiTrasporto|IndirizzoResa|Nazione", "Trasp_Paese"),
    ("DatiBeniServizi|DettaglioLinee|CodiceArticolo|CodiceTipo", "Art_tipo"),
    ("DatiBeniServizi|DettaglioLinee|CodiceArticolo|CodiceValore", "Art_cod_val"),
    ("DatiBeniServizi|DettaglioLinee|Quantita", "Art_qt"),
    ("DatiBeniServizi|DettaglioLinee|UnitaMisura", "Art_UM"),
    ("DatiBeniServizi|DettaglioLinee|AltriDatiGestionali|TipoDato", "Ft_linee_tipo"),
    ("DatiBeniServizi|DettaglioLinee|AltriDatiGestionali|RiferimentoTesto", "Ft_linee_rif"),
    ("DatiBeniServizi|DettaglioLinee|TipoCessionePrestazione", "Ft_linee_cess"),
    ("DatiBeniServizi|DatiRiepilogo|EsigibilitaIVA", "Ft_riep_esig_IVA"),
    ("DatiPagamento|DettaglioPagamento|DataRiferimentoTerminiPagamento", "Ft_pag_dt_rif"),
    ("DatiPagamento|DettaglioPagamento|GiorniTerminiPagamento", "Ft_pag_gg"),
    ("DatiPagamento|DettaglioPagamento|IstitutoFinanziario", "Ft_pag_bank"),
    ("DatiPagamento|DettaglioPagamento|BIC", "Ft_pag_BIC"),
    ("DatiPagamento|DettaglioPagamento|CodicePagamento", "Ft_pag_cod"),
    ("Allegati|NomeAttachment", "Ft_allegato_nome"),
    ("Allegati|FormatoAttachment", "Ft_all_format"),
    ("Allegati|Attachment", "Ft_allegato"),
    ("CedentePrestatore|Sede|NumeroCivico", "Forn_civico"),
    ("CedentePrestatore|Contatti", "Forn_contatti"),
    ("CessionarioCommittente|DatiAnagrafici|CodiceFiscale", "Soc_CF2"),
    ("DatiGenerali|DatiContratto|IdDocumento", "Gen_Iddoc"),
    ("TerzoIntermediarioOSoggettoEmittente|DatiAnagrafici|IdFiscaleIVA|IdPaese", "Int_Paese"),
    ("TerzoIntermediarioOSoggettoEmittente|DatiAnagrafici|IdFiscaleIVA|IdCodice", "Int_cod"),
    ("TerzoIntermediarioOSoggettoEmittente|DatiAnagrafici|Anagrafica|Denominazione", "Int_nome"),
    ("DatiGenerali|DatiOrdineAcquisto|Data", "Ordine_dt"),
    ("DatiGenerali|DatiRicezione|IdDocumento", "Gen_doc_ric"),
    ("DatiGenerali|DatiTrasporto|DataOraConsegna", "Gen_consegna"),
    ("DatiBeniServizi|DettaglioLinee|ScontoMaggiorazione|Tipo", "Ft_linee_tipo_sc"),
    ("DatiBeniServizi|DettaglioLinee|ScontoMaggiorazione|Percentuale", "Ft_linee_sconto_perc"),
    ("DatiBeniServizi|DettaglioLinee|ScontoMaggiorazione|Importo", "Ft_linee_sconto_imp"),
    ("DatiTrasmissione|ContattiTrasmittente", "Dati_trasmiss"),
    ("DatiGenerali|DatiGeneraliDocumento|DatiCassaPrevidenziale|TipoCassa", "Prev_tipo"),
    ("DatiGenerali|DatiGeneraliDocumento|DatiCassaPrevidenziale|AlCassa", "Prev_al"),
    ("DatiGenerali|DatiGeneraliDocumento|DatiCassaPrevidenziale|ImportoContributoCassa", "Prev_importo"),
    ("DatiGenerali|DatiGeneraliDocumento|DatiCassaPrevidenziale|ImponibileCassa", "Prev_impo"),
    ("DatiGenerali|DatiGeneraliDocumento|DatiCassaPrevidenziale|AliquotaIVA", "Prev_IVAal"),
    ("Allegati|DescrizioneAttachment", "All_descr"),
    ("CedentePrestatore|DatiAnagrafici|Anagrafica|Titolo", "Ced_titolo"),
    ("CedentePrestatore|Contatti|Fax", "Ced_fax"),
    ("CedentePrestatore|Contatti|Email", "Ced_mail"),
    ("TerzoIntermediarioOSoggettoEmittente|DatiAnagrafici|CodiceFiscale", "Int_CF"),
    ("SoggettoEmittente", "Sogg_em"),
    ("DatiPagamento|DettaglioPagamento|Beneficiario", "Pg_benef"),
    ("DatiBeniServizi|DatiRiepilogo|Arrotondamento", "tec1"),
    ("CessionarioCommittente|Sede|NumeroCivico", "tec2"),
    ("DatiGenerali|DatiGeneraliDocumento|Arrotondamento", "tec3"),
    ("DatiGenerali|DatiGeneraliDocumento|DatiBollo|BolloVirtuale", "BolloVirtuale"),
    ("DatiGenerali|DatiGeneraliDocumento|DatiBollo|ImportoBollo", "Bollo_imp"),
    ("DatiPagamento|DettaglioPagamento|ABI", "ABI"),
    ("DatiPagamento|DettaglioPagamento|CAB", "CAB"),
    ("DatiGenerali|DatiOrdineAcquisto|CodiceCUP", "CUP"),
    ("DatiBeniServizi|DettaglioLinee|DataInizioPeriodo", "Ft_linee_DT_inizio"),
    ("DatiBeniServizi|DettaglioLinee|DataFinePeriodo", "Ft_linee_DT_fine"),
    ("CedentePrestatore|RiferimentoAmministrazione", "tec4"),
    ("DatiBeniServizi|DettaglioLinee|AltriDatiGestionali|RiferimentoData", "Ft_linee_dt_rif"),
    ("DatiBeniServizi|DettaglioLinee|AltriDatiGestionali|RiferimentoNumero", "Ft_linee_num_rif"),
    ("DatiGenerali|DatiGeneraliDocumento|DatiRitenuta|TipoRitenuta", "Rit"),
    ("DatiGenerali|DatiGeneraliDocumento|DatiRitenuta|ImportoRitenuta", "Rit_imp"),
    ("DatiGenerali|DatiGeneraliDocumento|DatiRitenuta|AliquotaRitenuta", "Rit_al"),
    ("DatiGenerali|DatiGeneraliDocumento|DatiRitenuta|CausalePagamento", "Rit_causale"),
    ("DatiBeniServizi|DettaglioLinee|Ritenuta", "Rit_linee_dett"),
    ("DatiGenerali|DatiOrdineAcquisto|CodiceCommessaConvenzione", "Ft_comm"),
    ("DatiGenerali|DatiContratto|Data", "Contr_dt"),
    ("DatiGenerali|DatiContratto|CodiceCUP", "Contr_CUP"),
    ("DatiGenerali|DatiFattureCollegate|RiferimentoNumeroLinea", "Ftcoll_linea"),
    ("DatiGenerali|DatiFattureCollegate|IdDocumento", "Ftcoll_ID"),
    ("DatiGenerali|DatiFattureCollegate|Data", "Ftcoll_Dt"),
    ("DatiGenerali|DatiFattureCollegate|NumItem", "Ftcoll_item"),
    ("DatiBeniServizi|DatiRiepilogo|SpeseAccessorie", "SpeseAccessorie"),
    ("DatiGenerali|DatiGeneraliDocumento|Art73", "Art73"),
    ("DatiGenerali|DatiTrasporto", "tec5"),
    ("DatiBeniServizi|DettaglioLinee|RiferimentoAmministrazione", "tec6"),
    ("DatiGenerali|DatiOrdineAcquisto|NumItem", "tec7"),
    ("CessionarioCommittente|DatiAnagrafici|Anagrafica|CodEORI", "tec8"),
    ("DatiGenerali|DatiTrasporto|TipoResa", "tec9"),
    ("DatiPagamento|DettaglioPagamento|ScontoPagamentoAnticipato", "tec10"),
    ("DatiPagamento|DettaglioPagamento|PenalitaPagamentiRitardati", "tec11"),
    ("CedentePrestatore|StabileOrganizzazione|Indirizzo", "tec12"),
    ("CedentePrestatore|StabileOrganizzazione|CAP", "tec13"),
    ("CedentePrestatore|StabileOrganizzazione|Comune", "tec14"),
    ("CedentePrestatore|StabileOrganizzazione|Nazione", "tec15"),
    ("DatiGenerali|DatiContratto|RiferimentoNumeroLinea", "Contr_rif_linea"),
    ("DatiGenerali|FatturaPrincipale|NumeroFatturaPrincipale", "Ft_num_princ"),
    ("DatiGenerali|FatturaPrincipale|DataFatturaPrincipale", "Ft_dt_princ"),
    ("DatiGenerali|DatiTrasporto|MezzoTrasporto", "MezzoTrasporto"),
    ("DatiGenerali|DatiTrasporto|CausaleTrasporto", "CausaleTrasporto"),
    ("DatiGenerali|DatiTrasporto|NumeroColli", "NumeroColli"),
    ("DatiGenerali|DatiTrasporto|Descrizione", "Descrizione"),
    ("DatiGenerali|DatiTrasporto|DataOraRitiro", "DataOraRitiro"),
    ("Allegati|AlgoritmoCompressione", "tec16"),
    ("DatiGenerali|DatiTrasporto|UnitaMisuraPeso", "Trasp_UM"),
    ("DatiGenerali|DatiTrasporto|PesoLordo", "Trasp_peso"),
    ("CedentePrestatore|DatiAnagrafici|Anagrafica|Nome", "Forn_nome_an"),
    ("CedentePrestatore|DatiAnagrafici|Anagrafica|Cognome", "Forn_Cogn_an")
  ]

  /** `[x for x in signature if x != filler]` */
  function Without(xs: seq<string>, filler: string): (r: seq<string>)
    ensures |r| <= |xs|
    ensures forall x :: x in r <==> x in xs && x != filler
    ensures filler !in xs ==> r == xs
  {
    if |xs| == 0 then []
    else (if xs[0] == filler then [] else [xs[0]]) + Without(xs[1..], filler)
  }

  /** Every segment other than the filler is kept as often as it occurs. */
  lemma {:induction false} WithoutMultiset(xs: seq<string>, filler: string)
    ensures forall x :: multiset(Without(xs, filler))[x] == if x != filler then multiset(xs)[x] else 0
    decreases |xs|
  {
    if |xs| > 0 {
      assert xs == [xs[0]] + xs[1..];
      WithoutMultiset(xs[1..], filler);
    }
  }

  /** The segments are dropped one by one and the order of the rest is kept. */
  lemma {:induction false} WithoutAppend(a: seq<string>, b: seq<string>, filler: string)
    ensures Without(a + b, filler) == Without(a, filler) + Without(b, filler)
    decreases |a|
  {
    if |a| == 0 {
      assert a + b == b;
    } else {
      assert (a + b)[0] == a[0] && (a + b)[1..] == a[1..] + b;
      WithoutAppend(a[1..], b, filler);
      var head := if a[0] == filler then [] else [a[0]];
      AppendAssociative(head, Without(a[1..], filler), Without(b, filler));
    }
  }

  /** The lookup key of a column signature: its segments other than the filler, joined
      with `"|"`; empty segments are kept. */
  function SearchKey(signature: seq<string>, filler: string): string
  {
    Join(Without(signature, filler), "|")
  }

  /** An empty lookup table stands for the default one. */
  function EffectiveTable(lookupTable: Dict<string, string>): Dict<string, string>
  {
    if |lookupTable| == 0 then DefaultLookupTable else lookupTable
  }

  /** `"unk_{}".format(n)` */
  function UnknownLabel(n: nat): string
  {
    "unk_" + NatToString(n)
  }

  /** The header and the `new_labels` dictionary `modify_header` has built after the
      given columns: a key found in the table takes the table's label; any other key
      takes `unk_` followed by one more than the number of keys recorded so far, and is
      recorded under that label. */
  function Relabel(columns: seq<seq<string>>, filler: string, table: Dict<string, string>): (res: (seq<string>, Dict<string, string>))
    ensures |res.0| == |columns|
    decreases |columns|
  {
    if |columns| == 0 then ([], [])
    else
      var before := Relabel(columns[..|columns| - 1], filler, table);
      var search := SearchKey(columns[|columns| - 1], filler);
      if HasKey(table, search) then (before.0 + [Get(table, search).value], before.1)
      else
        var unknown := UnknownLabel(|before.1| + 1);
        (before.0 + [unknown], Put(before.1, search, unknown))
  }

  /** `modify_header(df, filler, lookup_table)` over the column signatures of `df`: the
      new column labels, one per column, and the labels given to unmapped keys. */
  method ModifyHeader(columns: seq<seq<string>>, filler: string, lookupTable: Dict<string, string>)
    returns (header: seq<string>, newLabels: Dict<string, string>)
    ensures (header, newLabels) == Relabel(columns, filler, EffectiveTable(lookupTable))
  {
    var table := lookupTable;
    if |table| == 0 {
      table := DefaultLookupTable;
    }
    header, newLabels := RelabelColumns(columns, filler, table);
  }

  /** The loop of `modify_header` over the columns, once the table is chosen. */
  method RelabelColumns(columns: seq<seq<string>>, filler: string, table: Dict<string, string>)
    returns (header: seq<string>, newLabels: Dict<string, string>)
    ensures (header, newLabels) == Relabel(columns, filler, table)
  {
    header, newLabels := [], [];
    for i := 0 to |columns|
      invariant (header, newLabels) == Relabel(columns[..i], filler, table)
    {
      var search := Join(Without(columns[i], filler), "|");
      if HasKey(table, search) {
        header := header + [Get(table, search).value];
      } else {
        var newLabel := "unk_" + NatToString(|newLabels| + 1);
        header := header + [newLabel];
        newLabels := Put(newLabels, search, newLabel);
      }
      assert columns[..i + 1][..i] == columns[..i];
    }
    assert columns[..|columns|] == columns;
  }

  /** A column whose key is in the table gets the table's label. */
  lemma {:induction false} RelabelMapped(columns: seq<seq<string>>, filler: string, table: Dict<string, string>, i: nat)
    requires i < |columns| && HasKey(table, SearchKey(columns[i], filler))
    ensures Relabel(columns, filler, table).0[i] == Get(table, SearchKey(columns[i], filler)).value
    decreases |columns|
  {
    if i < |columns| - 1 {
      assert columns[..|columns| - 1][i] == columns[i];
      RelabelMapped(columns[..|columns| - 1], filler, table, i);
    }
  }

  /** A column whose key is not in the table gets `unk_N`, `N` one more than the number
      of unmapped keys recorded before it. */
  lemma {:induction false} RelabelUnmapped(columns: seq<seq<string>>, filler: string, table: Dict<string, string>, i: nat)
    requires i < |columns| && !HasKey(table, SearchKey(columns[i], filler))
    ensures Relabel(columns, filler, table).0[i] == UnknownLabel(|Relabel(columns[..i], filler, table).1| + 1)
    decreases |columns|
  {
    if i < |columns| - 1 {
      assert columns[..|columns| - 1][i] == columns[i];
      assert columns[..|columns| - 1][..i] == columns[..i];
      RelabelUnmapped(columns[..|columns| - 1], filler, table, i);
    }
  }

  /** `new_labels` is a dictionary: one entry per recorded key. */
  lemma {:induction false} RelabelWellformed(columns: seq<seq<string>>, filler: string, table: Dict<string, string>)
    ensures Wellformed(Relabel(columns, filler, table).1)
    decreases |columns|
  {
    if |columns| > 0 {
      var init := columns[..|columns| - 1];
      RelabelWellformed(init, filler, table);
      var before := Relabel(init, filler, table);
      var search := SearchKey(columns[|columns| - 1], filler);
      if !HasKey(table, search) {
        PutSpec(before.1, search, UnknownLabel(|before.1| + 1));
      }
    }
  }

  /** Some column has key `k` and the table does not map it. */
  predicate Unmapped(columns: seq<seq<string>>, filler: string, table: Dict<string, string>, k: string)
  {
    !HasKey(table, k) && exists i :: 0 <= i < |columns| && SearchKey(columns[i], filler) == k
  }

  /** `new_labels` holds exactly the keys of the columns the table does not map. */
  lemma {:induction false} RelabelNewLabels(columns: seq<seq<string>>, filler: string, table: Dict<string, string>)
    ensures Wellformed(Relabel(columns, filler, table).1)
    ensures forall k :: HasKey(Relabel(columns, filler, table).1, k) <==> Unmapped(columns, filler, table, k)
    decreases |columns|
  {
    RelabelWellformed(columns, filler, table);
    if |columns| > 0 {
      var init := columns[..|columns| - 1];
      RelabelNewLabels(init, filler, table);
      var before := Relabel(init, filler, table).1;
      var after := Relabel(columns, filler, table).1;
      var search := SearchKey(columns[|columns| - 1], filler);
      RelabelKeysStep(columns, filler, table);
      forall k ensures HasKey(after, k) <==> Unmapped(columns, filler, table, k) {
        if Unmapped(init, filler, table, k) {
          var i :| 0 <= i < |init| && SearchKey(init[i], filler) == k;
          assert columns[i] == init[i];
        }
        if Unmapped(columns, filler, table, k) && k != search {
          var i :| 0 <= i < |columns| && SearchKey(columns[i], filler) == k;
          assert init[i] == columns[i];
        }
      }
    }
  }

  /** One more column records its key exactly when the table does not map it. */
  lemma {:induction false} RelabelKeysStep(columns: seq<seq<string>>, filler: string, table: Dict<string, string>)
    requires |columns| > 0
    ensures var before := Relabel(columns[..|columns| - 1], filler, table).1;
      var search := SearchKey(columns[|columns| - 1], filler);
      forall k :: HasKey(Relabel(columns, filler, table).1, k) <==> HasKey(before, k) || (k == search && !HasKey(table, search))
  {
    var before := Relabel(columns[..|columns| - 1], filler, table);
    var after := Relabel(columns, filler, table);
    var search := SearchKey(columns[|columns| - 1], filler);
    if HasKey(table, search) {
      assert after.1 == before.1;
    } else {
      var unknown := UnknownLabel(|before.1| + 1);
      assert after.1 == Put(before.1, search, unknown);
      PutKeys(before.1, search, unknown);
    }
  }

  /** The label recorded for an unmapped key is the one its last column received. */
  lemma {:induction false} RelabelLastWins(columns: seq<seq<string>>, filler: string, table: Dict<string, string>, i: nat)
    requires i < |columns| && !HasKey(table, SearchKey(columns[i], filler))
    requires forall j :: i < j < |columns| ==> SearchKey(columns[j], filler) != SearchKey(columns[i], filler)
    ensures Get(Relabel(columns, filler, table).1, SearchKey(columns[i], filler)) == Some(Relabel(columns, filler, table).0[i])
    decreases |columns|
  {
    var init := columns[..|columns| - 1];
    RelabelRecordStep(columns, filler, table, SearchKey(columns[i], filler));
    if i < |columns| - 1 {
      assert init[i] == columns[i];
      RelabelLastWins(init, filler, table, i);
    }
  }

  /** One more column leaves the earlier labels in place, records the label of an
      unmapped last column under its key, and leaves every other key's record alone. */
  lemma {:induction false} RelabelRecordStep(columns: seq<seq<string>>, filler: string, table: Dict<string, string>, k: string)
    requires |columns| > 0
    ensures var before := Relabel(columns[..|columns| - 1], filler, table);
      var after := Relabel(columns, filler, table);
      var search := SearchKey(columns[|columns| - 1], filler);
      && (forall j :: 0 <= j < |columns| - 1 ==> after.0[j] == before.0[j])
      && (!HasKey(table, search) ==> Get(after.1, search) == Some(after.0[|columns| - 1]))
      && (k != search ==> Get(after.1, k) == Get(before.1, k))
  {
    var init := columns[..|columns| - 1];
    RelabelWellformed(init, filler, table);
    var before := Relabel(init, filler, table);
    var after := Relabel(columns, filler, table);
    var search := SearchKey(columns[|columns| - 1], filler);
    if HasKey(table, search) {
      assert after == (before.0 + [Get(table, search).value], before.1);
    } else {
      var unknown := UnknownLabel(|before.1| + 1);
      assert after == (before.0 + [unknown], Put(before.1, search, unknown));
      PutSpec(before.1, search, unknown);
    }
  }

  /** Numbering counts recorded keys, not columns, and a repeated key overwrites its own
      record: three columns `A`, `A`, `B` absent from the table are labelled `unk_1`,
      `unk_2`, `unk_2`. */
  lemma {:induction false} UnknownLabelsCollide()
    ensures Relabel([["A"], ["A"], ["B"]], " ", []).0 == ["unk_1", "unk_2", "unk_2"]
    ensures Relabel([["A"], ["A"], ["B"]], " ", []).1 == [("A", "unk_2"), ("B", "unk_2")]
  {
    var columns := [["A"], ["A"], ["B"]];
    ExampleKeysAndLabels();
    ExampleRepeatedKey();
    assert columns[..2] == [["A"], ["A"]];
    var d2 := [("A", "unk_2")];
    assert !HasKey(d2, "B") by {
      assert "A"[0] != "B"[0];
    }
    assert Put(d2, "B", "unk_2") == [("A", "unk_2"), ("B", "unk_2")];
  }

  /** The keys and the first two unknown labels of the example above. */
  lemma {:induction false} ExampleKeysAndLabels()
    ensures SearchKey(["A"], " ") == "A" && SearchKey(["B"], " ") == "B"
    ensures UnknownLabel(1) == "unk_1" && UnknownLabel(2) == "unk_2"
  {
    assert ["A"][1..] == [] && ["B"][1..] == [];
    assert Without(["A"], " ") == ["A"] && Without(["B"], " ") == ["B"];
    assert NatToString(1) == "1" && NatToString(2) == "2";
  }

  /** A key seen twice is recorded once, under the second label. */
  lemma {:induction false} ExampleRepeatedKey()
    ensures Relabel([["A"], ["A"]], " ", []) == (["unk_1", "unk_2"], [("A", "unk_2")])
  {
    ExampleKeysAndLabels();
    ExampleFirstKey();
    assert [["A"], ["A"]][..1] == [["A"]];
    var d1 := [("A", "unk_1")];
    assert HasKey(d1, "A") by { assert d1[0].0 == "A"; }
    assert IndexOf(d1, "A") == 0;
    assert Put(d1, "A", "unk_2") == [("A", "unk_2")] by {
      assert d1[0 := ("A", "unk_2")] == [("A", "unk_2")];
    }
    assert ["unk_1"] + ["unk_2"] == ["unk_1", "unk_2"];
  }

  lemma {:induction false} ExampleFirstKey()
    ensures Relabel([["A"]], " ", []) == (["unk_1"], [("A", "unk_1")])
  {
    ExampleKeysAndLabels();
    assert [["A"]][..0] == [];
    var d0: Dict<string, string> := [];
    assert !HasKey(d0, "A");
    assert Relabel([], " ", []) == ([], []);
    assert Put(d0, "A", "unk_1") == [("A", "unk_1")];
    assert [] + ["unk_1"] == ["unk_1"];
  }

  /** The relabelling the numbering evidently intends: a key recorded earlier keeps the
      label it was given, so every distinct unmapped key has its own `unk_N`. */
  function RelabelDistinct(columns: seq<seq<string>>, filler: string, table: Dict<string, string>): (res: (seq<string>, Dict<string, string>))
    ensures |res.0| == |columns|
    decreases |columns|
  {
    if |columns| == 0 then ([], [])
    else
      var before := RelabelDistinct(columns[..|columns| - 1], filler, table);
      var search := SearchKey(columns[|columns| - 1], filler);
      if HasKey(table, search) then (before.0 + [Get(table, search).value], before.1)
      else if HasKey(before.1, search) then (before.0 + [Get(before.1, search).value], before.1)
      else
        var unknown := UnknownLabel(|before.1| + 1);
        (before.0 + [unknown], Put(before.1, search, unknown))
  }

  /** The `N`-th recorded key carries `unk_N`. */
  lemma {:induction false} RelabelDistinctNumbered(columns: seq<seq<string>>, filler: string, table: Dict<string, string>)
    ensures Wellformed(RelabelDistinct(columns, filler, table).1)
    ensures forall m :: 0 <= m < |RelabelDistinct(columns, filler, table).1| ==>
      RelabelDistinct(columns, filler, table).1[m].1 == UnknownLabel(m + 1)
    decreases |columns|
  {
    if |columns| > 0 {
      var init := columns[..|columns| - 1];
      RelabelDistinctNumbered(init, filler, table);
      var before := RelabelDistinct(init, filler, table);
      var search := SearchKey(columns[|columns| - 1], filler);
      if !HasKey(table, search) && !HasKey(before.1, search) {
        var after := before.1 + [(search, UnknownLabel(|before.1| + 1))];
        assert RelabelDistinct(columns, filler, table).1 == after;
        forall m | 0 <= m < |after| ensures after[m].1 == UnknownLabel(m + 1) {
          if m < |before.1| { assert after[m] == before.1[m]; }
        }
        RelabelDistinctWellformed(columns, filler, table);
      }
    }
  }

  /** The corrected relabelling never records a key twice. */
  lemma {:induction false} RelabelDistinctWellformed(columns: seq<seq<string>>, filler: string, table: Dict<string, string>)
    ensures Wellformed(RelabelDistinct(columns, filler, table).1)
    decreases |columns|
  {
    if |columns| > 0 {
      var init := columns[..|columns| - 1];
      RelabelDistinctWellformed(init, filler, table);
      var before := RelabelDistinct(init, filler, table).1;
      var search := SearchKey(columns[|columns| - 1], filler);
      if !HasKey(table, search) && !HasKey(before, search) {
        var after := before + [(search, UnknownLabel(|before| + 1))];
        assert RelabelDistinct(columns, filler, table).1 == after;
        forall p, q | 0 <= p < q < |after| ensures after[p].0 != after[q].0 {
          if q == |before| {
            assert after[p] == before[p];
          } else {
            assert after[p] == before[p] && after[q] == before[q];
          }
        }
      }
    }
  }

  /** Every unmapped column carries the label recorded for its key. */
  lemma {:induction false} RelabelDistinctRecorded(columns: seq<seq<string>>, filler: string, table: Dict<string, string>, i: nat)
    requires i < |columns| && !HasKey(table, SearchKey(columns[i], filler))
    ensures Get(RelabelDistinct(columns, filler, table).1, SearchKey(columns[i], filler)) == Some(RelabelDistinct(columns, filler, table).0[i])
    decreases |columns|
  {
    var init := columns[..|columns| - 1];
    RelabelDistinctStep(columns, filler, table, SearchKey(columns[i], filler));
    if i < |columns| - 1 {
      assert init[i] == columns[i];
      RelabelDistinctRecorded(init, filler, table, i);
    }
  }

  /** One more column leaves the earlier labels in place, gives an unmapped last column
      the label recorded under its key, and leaves every other key's record alone. */
  lemma {:induction false} RelabelDistinctStep(columns: seq<seq<string>>, filler: string, table: Dict<string, string>, k: string)
    requires |columns| > 0
    ensures var before := RelabelDistinct(columns[..|columns| - 1], filler, table);
      var after := RelabelDistinct(columns, filler, table);
      var search := SearchKey(columns[|columns| - 1], filler);
      && (forall j :: 0 <= j < |columns| - 1 ==> after.0[j] == before.0[j])
      && (!HasKey(table, search) ==> Get(after.1, search) == Some(after.0[|columns| - 1]))
      && (k != search ==> Get(after.1, k) == Get(before.1, k))
  {
    var init := columns[..|columns| - 1];
    RelabelDistinctWellformed(init, filler, table);
    var before := RelabelDistinct(init, filler, table);
    var after := RelabelDistinct(columns, filler, table);
    var search := SearchKey(columns[|columns| - 1], filler);
    if HasKey(table, search) {
      assert after == (before.0 + [Get(table, search).value], before.1);
    } else if HasKey(before.1, search) {
      RelabelDistinctKnown(before.0, before.1, search);
      assert after == (before.0 + [Get(before.1, search).value], before.1);
    } else {
      var unknown := UnknownLabel(|before.1| + 1);
      assert after == (before.0 + [unknown], before.1 + [(search, unknown)]);
      GetAppendNew(before.1, search, unknown, k);
    }
  }

  /** A column whose key is already recorded takes the recorded label. */
  lemma {:induction false} RelabelDistinctKnown(header: seq<string>, labels: Dict<string, string>, search: string)
    requires HasKey(labels, search)
    ensures var after := header + [Get(labels, search).value];
      && (forall j :: 0 <= j < |header| ==> after[j] == header[j])
      && Get(labels, search) == Some(after[|header|])
  {
  }

  lemma {:induction false} NatToStringInjective(a: nat, b: nat)
    requires NatToString(a) == NatToString(b)
    ensures a == b
    decreases a
  {
    if a < 10 && b < 10 {
      assert Digit(a) == NatToString(a)[0];
    } else if a >= 10 && b >= 10 {
      var sa, sb := NatToString(a / 10), NatToString(b / 10);
      assert |sa| == |sb|;
      assert sa == NatToString(a)[..|sa|] && sb == NatToString(b)[..|sb|];
      assert Digit(a % 10) == NatToString(a)[|sa|] && Digit(b % 10) == NatToString(b)[|sb|];
      NatToStringInjective(a / 10, b / 10);
    }
  }

  lemma {:induction false} UnknownLabelInjective(a: nat, b: nat)
    requires UnknownLabel(a) == UnknownLabel(b)
    ensures a == b
  {
    assert UnknownLabel(a)[4..] == NatToString(a) && UnknownLabel(b)[4..] == NatToString(b);
    NatToStringInjective(a, b);
  }

  /** With the intended numbering two unmapped columns share a label exactly when they
      share a key. */
  lemma {:induction false} RelabelDistinctSeparatesKeys(columns: seq<seq<string>>, filler: string, table: Dict<string, string>, i: nat, j: nat)
    requires i < |columns| && j < |columns|
    requires !HasKey(table, SearchKey(columns[i], filler)) && !HasKey(table, SearchKey(columns[j], filler))
    ensures RelabelDistinct(columns, filler, table).0[i] == RelabelDistinct(columns, filler, table).0[j]
        <==> SearchKey(columns[i], filler) == SearchKey(columns[j], filler)
  {
    RelabelDistinctNumbered(columns, filler, table);
    RelabelDistinctRecorded(columns, filler, table, i);
    RelabelDistinctRecorded(columns, filler, table, j);
    var (header, newLabels) := RelabelDistinct(columns, filler, table);
    var ki, kj := SearchKey(columns[i], filler), SearchKey(columns[j], filler);
    var a, b := IndexOf(newLabels, ki), IndexOf(newLabels, kj);
    if header[i] == header[j] {
      UnknownLabelInjective(a + 1, b + 1);
    }
  }

  /** `"{}: {}\n".format(key, label)` */
  function EntryLine(entry: (string, string)): string
  {
    entry.0 + ": " + entry.1 + "\n"
  }

  /** The text of `get_default_lookup_table` for a table: its entry lines in order. */
  function Serialized(table: Dict<string, string>): (r: string)
    ensures |r| == 0 <==> |table| == 0
    ensures |r| > 0 ==> r[|r| - 1] == '\n'
  {
    if |table| == 0 then "" else EntryLine(table[0]) + Serialized(table[1..])
  }

  lemma {:induction false} SerializedSnoc(table: Dict<string, string>, entry: (string, string))
    ensures Serialized(table + [entry]) == Serialized(table) + EntryLine(entry)
    decreases |table|
  {
    if |table| == 0 {
      assert ([] + [entry])[1..] == [];
    } else {
      assert (table + [entry])[1..] == table[1..] + [entry];
      SerializedSnoc(table[1..], entry);
    }
  }

  /** `get_default_lookup_table()`: the default table's entry lines, accumulated with `+=`. */
  method GetDefaultLookupTable() returns (text: string)
    ensures text == Serialized(DefaultLookupTable)
  {
    text := WriteEntries(DefaultLookupTable);
  }

  /** The loop of `get_default_lookup_table`: one `key: value` line per entry, in order. */
  method WriteEntries(table: Dict<string, string>) returns (text: string)
    ensures text == Serialized(table)
  {
    text := "";
    for i := 0 to |table|
      invariant text == Serialized(table[..i])
    {
      var (key, value) := table[i];
      SerializedSnoc(table[..i], table[i]);
      assert table[..i + 1] == table[..i] + [table[i]];
      text := text + key + ": " + value + "\n";
    }
    assert table[..|table|] == table;
  }

  /** The length of the first line of a non-empty text: up to and including its first
      newline, or the whole text. */
  function LineLength(s: string): (n: nat)
    requires |s| > 0
    ensures 1 <= n <= |s|
    ensures '\n' !in s[..n - 1]
    ensures n < |s| ==> s[n - 1] == '\n'
    decreases |s|
  {
    if s[0] == '\n' || |s| == 1 then 1
    else
      var n := 1 + LineLength(s[1..]);
      assert s[..n - 1] == [s[0]] + s[1..][..n - 2];
      n
  }

  /** The lines a text stream yields when iterated: each ends with its newline, except a
      last line without one. */
  function Lines(s: string): (lines: seq<string>)
    ensures forall i :: 0 <= i < |lines| ==> |lines[i]| > 0 && '\n' !in lines[i][..|lines[i]| - 1]
    ensures forall i :: 0 <= i < |lines| - 1 ==> lines[i][|lines[i]| - 1] == '\n'
    decreases |s|
  {
    if |s| == 0 then []
    else
      var n := LineLength(s);
      [s[..n]] + Lines(s[n..])
  }

  /** The lines of a text put back together give the text. */
  lemma {:induction false} LinesRebuild(s: string)
    ensures Join(Lines(s), "") == s
    decreases |s|
  {
    if |s| > 0 {
      var n := LineLength(s);
      LinesRebuild(s[n..]);
      if |Lines(s[n..])| == 0 {
        assert s[n..] == "";
      }
    }
  }

  lemma {:induction false} LineLengthOf(x: string, rest: string)
    requires '\n' !in x
    ensures LineLength(x + "\n" + rest) == |x| + 1
    decreases |x|
  {
    if |x| > 0 {
      assert (x + "\n" + rest)[1..] == x[1..] + "\n" + rest;
      LineLengthOf(x[1..], rest);
    }
  }

  /** A line with no newline before its own is the first line of the text it starts. */
  lemma {:induction false} LinesCons(x: string, rest: string)
    requires '\n' !in x
    ensures Lines(x + "\n" + rest) == [x + "\n"] + Lines(rest)
  {
    var s := x + "\n" + rest;
    LineLengthOf(x, rest);
    assert s[..|x| + 1] == x + "\n" && s[|x| + 1..] == rest;
  }

  /** `line.strip('\n').split(":")`, checked for exactly two parts; with `trim` the value
      also loses one leading space, which is how the reader evidently should undo the
      writer's `": "`. */
  function ParseLine(line: string, trim: bool): (r: Result<(string, string), TableError>)
    ensures r.Failure? <==> Count(Strip(line, '\n'), ":") != 1
    ensures r.Success? && !trim ==> r.value.0 + ":" + r.value.1 == Strip(line, '\n')
  {
    var sline := Split(Strip(line, '\n'), ":");
    SplitCount(Strip(line, '\n'), ":");
    JoinSplit(Strip(line, '\n'), ":");
    if |sline| != 2 then Failure(ValueError)
    else
      assert Join(sline, ":") == sline[0] + ":" + Join(sline[1..], ":");
      Success((sline[0], if trim && |sline[1]| > 0 && sline[1][0] == ' ' then sline[1][1..] else sline[1]))
  }

  /** The table read from `lines` into `acc`, each line's entry stored with `d[k] = v`,
      or `ValueError` at the first malformed line. */
  function ReadTable(lines: seq<string>, acc: Dict<string, string>, trim: bool): (r: Result<Dict<string, string>, TableError>)
    ensures r.Success? ==> |acc| <= |r.value| <= |acc| + |lines|
    decreases |lines|
  {
    if |lines| == 0 then Success(acc)
    else
      match ParseLine(lines[0], trim)
      case Failure(e) => Failure(e)
      case Success(kv) => ReadTable(lines[1..], Put(acc, kv.0, kv.1), trim)
  }

  /** Any malformed line makes the whole read fail. */
  lemma {:induction false} ReadTableRejects(lines: seq<string>, acc: Dict<string, string>, trim: bool, i: nat)
    requires i < |lines| && ParseLine(lines[i], trim).Failure?
    ensures ReadTable(lines, acc, trim) == Failure(ValueError)
    decreases |lines|
  {
    if i > 0 && ParseLine(lines[0], trim).Success? {
      var kv := ParseLine(lines[0], trim).value;
      assert lines[1..][i - 1] == lines[i];
      ReadTableRejects(lines[1..], Put(acc, kv.0, kv.1), trim, i - 1);
    }
  }

  /** The table read is a dictionary: one entry per key. */
  lemma {:induction false} ReadTableWellformed(lines: seq<string>, acc: Dict<string, string>, trim: bool)
    requires Wellformed(acc) && ReadTable(lines, acc, trim).Success?
    ensures Wellformed(ReadTable(lines, acc, trim).value)
    decreases |lines|
  {
    if |lines| > 0 {
      var kv := ParseLine(lines[0], trim).value;
      PutSpec(acc, kv.0, kv.1);
      ReadTableWellformed(lines[1..], Put(acc, kv.0, kv.1), trim);
    }
  }

  /** `convert_to_lookup_table(instream)` over the stream's text. */
  method ConvertToLookupTable(text: string) returns (r: Result<Dict<string, string>, TableError>)
    ensures r == ReadTable(Lines(text), [], false)
  {
    var lines := Lines(text);
    var table: Dict<string, string> := [];
    for i := 0 to |lines|
      invariant ReadTable(lines, [], false) == ReadTable(lines[i..], table, false)
    {
      var sline := Split(Strip(lines[i], '\n'), ":");
      if |sline| != 2 {
        return Failure(ValueError);
      }
      table := Put(table, sline[0], sline[1]);
      assert lines[i..][1..] == lines[i + 1..];
    }
    return Success(table);
  }

  /** Keys and labels that can be written as lines and read back: no colon, no newline. */
  predicate Writable(table: Dict<string, string>)
  {
    forall i :: 0 <= i < |table| ==> WritableEntry(table[i])
  }

  predicate WritableEntry(entry: (string, string))
  {
    ':' !in entry.0 && '\n' !in entry.0 && ':' !in entry.1 && '\n' !in entry.1
  }

  /** Every label with the space the writer puts after the colon. */
  function Shifted(table: Dict<string, string>): (r: Dict<string, string>)
    ensures |r| == |table| && forall i :: 0 <= i < |table| ==> r[i] == (table[i].0, " " + table[i].1)
  {
    seq(|table|, i requires 0 <= i < |table| => (table[i].0, " " + table[i].1))
  }

  /** One written entry line reads back as its key and its label behind a space. */
  lemma {:induction false} ParseEntryLine(entry: (string, string), trim: bool)
    requires WritableEntry(entry)
    ensures ParseLine(EntryLine(entry), trim) == Success((entry.0, ReadLabel(entry.1, trim)))
  {
    var (k, v) := entry;
    var x := k + ": " + v;
    assert EntryLine(entry) == x + "\n";
    assert '\n' !in x;
    assert Strip(x + "\n", '\n') == x;
    assert x == k + ":" + (" " + v);
    ContainsOneChar(k, ":");
    FreeOneChar(k, ":");
    SplitFreeHead(k, " " + v, ":");
    ContainsOneChar(" " + v, ":");
    SplitNoSeparator(" " + v, ":");
    assert Split(Strip(EntryLine(entry), '\n'), ":") == [k, " " + v];
  }

  /** The first written entry is read as the first line, and stored after `acc`. */
  lemma {:induction false} ReadFirstEntry(table: Dict<string, string>, acc: Dict<string, string>, trim: bool)
    requires |table| > 0 && Writable(table) && !HasKey(acc, table[0].0)
    ensures var e := table[0];
      ReadTable(Lines(Serialized(table)), acc, trim)
      == ReadTable(Lines(Serialized(table[1..])), acc + [(e.0, ReadLabel(e.1, trim))], trim)
  {
    var e := table[0];
    assert '\n' !in e.0 + ": " + e.1;
    LinesCons(e.0 + ": " + e.1, Serialized(table[1..]));
    assert Serialized(table) == e.0 + ": " + e.1 + "\n" + Serialized(table[1..]);
    ParseEntryLine(e, trim);
  }

  /** Moving the first entry of `table` behind `acc`, with any value, keeps the keys
      distinct. */
  lemma {:induction false} ShiftEntry(table: Dict<string, string>, acc: Dict<string, string>, value: string)
    requires |table| > 0 && Wellformed(acc + table)
    ensures !HasKey(acc, table[0].0)
    ensures Wellformed(acc + [(table[0].0, value)] + table[1..])
  {
    assert !HasKey(acc, table[0].0) by {
      forall j | 0 <= j < |acc| ensures acc[j].0 != table[0].0 {
        assert (acc + table)[j] == acc[j] && (acc + table)[|acc|] == table[0];
      }
    }
    var moved := acc + [(table[0].0, value)] + table[1..];
    forall p | 0 <= p < |moved| ensures moved[p].0 == (acc + table)[p].0 {
    }
  }

  lemma {:induction false} ShiftedCons(table: Dict<string, string>, acc: Dict<string, string>)
    requires |table| > 0
    ensures acc + [(table[0].0, " " + table[0].1)] + Shifted(table[1..]) == acc + Shifted(table)
  {
    assert Shifted(table) == [(table[0].0, " " + table[0].1)] + Shifted(table[1..]);
  }

  /** The label the reader stores for a written label. */
  function ReadLabel(written: string, trim: bool): string
  {
    if trim then written else " " + written
  }

  /** The table the reader recovers from a written one. */
  function ReadBackOf(table: Dict<string, string>, trim: bool): Dict<string, string>
  {
    if trim then table else Shifted(table)
  }

  /** One step of the round trip: the first line is read into `acc`, leaving the rest of
      the written table to read. */
  lemma {:induction false} ReadBackStep(table: Dict<string, string>, acc: Dict<string, string>, trim: bool)
    requires |table| > 0 && Writable(table) && Wellformed(acc + table)
    ensures var acc' := acc + [(table[0].0, ReadLabel(table[0].1, trim))];
      && Writable(table[1..]) && Wellformed(acc' + table[1..])
      && ReadTable(Lines(Serialized(table)), acc, trim) == ReadTable(Lines(Serialized(table[1..])), acc', trim)
  {
    ShiftEntry(table, acc, ReadLabel(table[0].1, trim));
    ReadFirstEntry(table, acc, trim);
    WritableTail(table);
  }

  /** What is read back from a table is its first entry's read-back followed by the
      rest's. */
  lemma {:induction false} ReadBackOfCons(table: Dict<string, string>, acc: Dict<string, string>, trim: bool)
    requires |table| > 0
    ensures acc + [(table[0].0, ReadLabel(table[0].1, trim))] + ReadBackOf(table[1..], trim) == acc + ReadBackOf(table, trim)
  {
    if trim {
      assert table == [table[0]] + table[1..];
    } else {
      ShiftedCons(table, acc);
    }
  }

  lemma {:induction false} ReadBack(table: Dict<string, string>, acc: Dict<string, string>, trim: bool)
    requires Writable(table) && Wellformed(acc + table)
    ensures ReadTable(Lines(Serialized(table)), acc, trim) == Success(acc + ReadBackOf(table, trim))
    decreases |table|
  {
    if |table| == 0 {
      assert Lines("") == [];
      assert acc + table == acc;
      assert Shifted(table) == table;
    } else {
      ReadBackStep(table, acc, trim);
      ReadBackOfCons(table, acc, trim);
      ReadBack(table[1..], acc + [(table[0].0, ReadLabel(table[0].1, trim))], trim);
    }
  }

  lemma {:induction false} WritableTail(table: Dict<string, string>)
    requires |table| > 0 && Writable(table)
    ensures Writable(table[1..])
  {
    forall i | 0 <= i < |table| - 1 ensures WritableEntry(table[1..][i]) {
      assert table[1..][i] == table[i + 1];
    }
  }

  /** Reading back what `get_default_lookup_table` writes gives every label with a leading
      space, so the written table is never recovered as it was. */
  lemma {:induction false} ReadBackShiftsLabels(table: Dict<string, string>)
    requires Writable(table) && Wellformed(table)
    ensures ReadTable(Lines(Serialized(table)), [], false) == Success(Shifted(table))
    ensures |table| > 0 ==> ReadTable(Lines(Serialized(table)), [], false) != Success(table)
  {
    assert [] + table == table;
    ReadBack(table, [], false);
    var shifted := Shifted(table);
    assert [] + ReadBackOf(table, false) == shifted;
    if |table| > 0 {
      assert |shifted[0].1| == |table[0].1| + 1;
      assert shifted != table;
    }
  }

  /** A reader that drops the space after the colon recovers the written table exactly. */
  lemma {:induction false} ReadBackTrimmed(table: Dict<string, string>)
    requires Writable(table) && Wellformed(table)
    ensures ReadTable(Lines(Serialized(table)), [], true) == Success(table)
  {
    assert [] + table == table;
    ReadBack(table, [], true);
    assert [] + ReadBackOf(table, true) == table;
  }
}
