/**
 * The configuration the pipeline reads (constants.py): the disclosure form
 * tiers in priority order, the local tag names accepted for each accounting
 * concept, and the thresholds and valuation defaults of the metrics.
 */
module Config {

  /** One (ordinance code, form code) disclosure form type and its name. */
  datatype FormTier = FormTier(ordinanceCode: string, formCode: string, name: string)

  /** Form tiers in priority order: annual, then quarterly, then semi-annual report. */
  const EdinetForms: seq<FormTier> := [
    FormTier("010", "030000", "Annual Securities Report"),
    FormTier("010", "043000", "Quarterly Report"),
    FormTier("010", "053000", "Semi-Annual Report")
  ]

  /** An accounting concept: its internal key and the local tag names that report it. */
  datatype Concept = Concept(key: string, tags: seq<string>)

  /** The concepts in configuration order (the order of the dictionary's keys). */
  const XbrlTagsLocal: seq<Concept> := [
    Concept("sales", ["Revenue", "NetSales"]),
    Concept("cogs", ["CostOfSales"]),
    Concept("op", ["OperatingProfitLoss", "OperatingIncome"]),
    Concept("ord", ["OrdinaryIncome"]),
    Concept("net", ["ProfitLoss"]),
    Concept("assets", ["Assets"]),
    Concept("equity", ["Equity", "NetAssets"]),
    Concept("tl", ["Liabilities"]),
    Concept("ca", ["CurrentAssets"]),
    Concept("cl", ["CurrentLiabilities"]),
    Concept("inv", ["Inventories"]),
    Concept("ar", ["TradeAndOtherReceivablesCurrent", "NotesAndAccountsReceivableTrade"]),
    Concept("cash", ["CashAndCashEquivalents", "CashAndDeposits"]),
    Concept("stinv", ["Securities", "OtherFinancialAssetsCurrent"]),
    Concept("invest", ["InvestmentsAndOtherAssets", "OtherFinancialAssetsNoncurrent"]),
    Concept("ppe", ["PropertyPlantAndEquipment"]),
    Concept("intan", ["IntangibleAssets"]),
    Concept("debt_short", ["ShortTermBorrowings", "BorrowingsCurrent"]),
    Concept("debt_long", ["LongTermBorrowings", "BorrowingsNoncurrent"]),
    Concept("bonds", ["Bonds", "BondsIssued"]),
    Concept("ocf", ["NetCashFlowsFromUsedInOperatingActivities",
                    "NetCashProvidedByUsedInOperatingActivities"]),
    Concept("capex", ["PurchaseOfPropertyPlantAndEquipmentClassifiedAsInvestingActivities",
                      "PurchaseOfPropertyPlantAndEquipment"]),
    Concept("dep_amort", ["DepreciationAndAmortisationExpense", "DepreciationAndAmortization"]),
    Concept("shares", ["NumberOfIssuedShares"])
  ]

  /** The keys of the concepts `cs`. */
  function KeysOf(cs: seq<Concept>): set<string>
  {
    set i | 0 <= i < |cs| :: cs[i].key
  }

  /** The set of configured concept keys. */
  function ConceptKeys(): set<string>
  {
    KeysOf(XbrlTagsLocal)
  }

  /** Every key is the key of some concept. */
  lemma KeyOrigin(cs: seq<Concept>, k: string) returns (i: int)
    requires k in KeysOf(cs)
    ensures 0 <= i < |cs| && cs[i].key == k
  {
    i :| 0 <= i < |cs| && cs[i].key == k;
  }

  // Health thresholds.
  const EquityRatioMin: real := 0.80
  const DebtToEquityMax: real := 2.0
  const CurrentRatioMin: real := 1.0
  const QuickRatioMin: real := 1.0
  const FixedRatioMax: real := 1.0

  // Profitability guide.
  const GrossMarginLow: real := 0.20
  const GrossMarginHigh: real := 0.40
  const OpMarginGood: real := 0.05
  const OpMarginHigh: real := 0.10
  const NetMarginGood: real := 0.05
  const NetMarginThin: real := 0.03
  const RoeExcellent: real := 0.10
  const RoeLow: real := 0.05
  const RoaEfficient: real := 0.05

  // Valuation defaults.
  const DefaultWacc: real := 0.10
  const BullGrowth: real := 0.20
  const DcfHorizonYears: nat := 10

  /** No local tag name is listed under two different concepts. */
  ghost predicate TagListsDisjoint(cs: seq<Concept>)
  {
    forall i, j, t :: 0 <= i < j < |cs| && t in cs[i].tags ==> t !in cs[j].tags
  }

  /** No tag of concept `i` is listed under a later concept. */
  ghost predicate UnsharedAfter(cs: seq<Concept>, i: nat)
    requires i < |cs|
  {
    forall j, t :: i < j < |cs| && t in cs[i].tags ==> t !in cs[j].tags
  }

  lemma UnsharedEverywhere(cs: seq<Concept>)
    requires forall i :: 0 <= i < |cs| ==> UnsharedAfter(cs, i)
    ensures TagListsDisjoint(cs)
  {
    forall i, j, t | 0 <= i < j < |cs| && t in cs[i].tags
      ensures t !in cs[j].tags
    {
      assert UnsharedAfter(cs, i);
    }
  }

  // The configuration is checked a few concepts at a time, so that each proof stays small.

  lemma UnsharedAfter0To1(i: nat)
    requires 0 <= i < 2
    ensures UnsharedAfter(XbrlTagsLocal, i)
  {
    if i == 0 {
    }
  }

  lemma UnsharedAfter2To3(i: nat)
    requires 2 <= i < 4
    ensures UnsharedAfter(XbrlTagsLocal, i)
  {
    if i == 2 {
    }
  }

  lemma UnsharedAfter4To5(i: nat)
    requires 4 <= i < 6
    ensures UnsharedAfter(XbrlTagsLocal, i)
  {
    if i == 4 {
    }
  }

  lemma UnsharedAfter6To7(i: nat)
    requires 6 <= i < 8
    ensures UnsharedAfter(XbrlTagsLocal, i)
  {
    if i == 6 {
    }
  }

  lemma UnsharedAfter8To9(i: nat)
    requires 8 <= i < 10
    ensures UnsharedAfter(XbrlTagsLocal, i)
  {
    if i == 8 {
    }
  }

  lemma UnsharedAfter10To11(i: nat)
    requires 10 <= i < 12
    ensures UnsharedAfter(XbrlTagsLocal, i)
  {
    if i == 10 {
    }
  }

  lemma UnsharedAfter12To13(i: nat)
    requires 12 <= i < 14
    ensures UnsharedAfter(XbrlTagsLocal, i)
  {
    if i == 12 {
    }
  }

  lemma UnsharedAfter14To15(i: nat)
    requires 14 <= i < 16
    ensures UnsharedAfter(XbrlTagsLocal, i)
  {
    if i == 14 {
    }
  }

  lemma UnsharedAfter16To17(i: nat)
    requires 16 <= i < 18
    ensures UnsharedAfter(XbrlTagsLocal, i)
  {
    if i == 16 {
    }
  }

  lemma UnsharedAfter18To23(i: nat)
    requires 18 <= i < 24
    ensures UnsharedAfter(XbrlTagsLocal, i)
  {
    if i == 18 {
    } else if i == 19 {
    } else if i == 20 {
    } else if i == 21 {
    } else if i == 22 {
    }
  }

  /**
   * No local tag is listed under two concepts, so looking a tag up by the
   * first concept that lists it is unambiguous.
   */
  lemma ConfiguredTagListsDisjoint()
    ensures TagListsDisjoint(XbrlTagsLocal)
  {
    forall i | 0 <= i < |XbrlTagsLocal|
      ensures UnsharedAfter(XbrlTagsLocal, i)
    {
      if i < 2 { UnsharedAfter0To1(i); }
      else if i < 4 { UnsharedAfter2To3(i); }
      else if i < 6 { UnsharedAfter4To5(i); }
      else if i < 8 { UnsharedAfter6To7(i); }
      else if i < 10 { UnsharedAfter8To9(i); }
      else if i < 12 { UnsharedAfter10To11(i); }
      else if i < 14 { UnsharedAfter12To13(i); }
      else if i < 16 { UnsharedAfter14To15(i); }
      else if i < 18 { UnsharedAfter16To17(i); }
      else { UnsharedAfter18To23(i); }
    }
    UnsharedEverywhere(XbrlTagsLocal);
  }

  /** No concept key of the first half of the table names a synthesized series. */
  lemma KeysNotSynthesizedFirstHalf(i: int)
    requires 0 <= i < 12
    ensures XbrlTagsLocal[i].key != "debt" && XbrlTagsLocal[i].key != "fcf" && XbrlTagsLocal[i].key != "ebitda"
  {
  }

  /** No concept key of the second half of the table names a synthesized series. */
  lemma KeysNotSynthesizedSecondHalf(i: int)
    requires 12 <= i < 24
    ensures XbrlTagsLocal[i].key != "debt" && XbrlTagsLocal[i].key != "fcf" && XbrlTagsLocal[i].key != "ebitda"
  {
  }

  /**
   * None of the configured concept keys is "debt", "fcf" or "ebitda": those
   * series exist only when the extraction synthesizes them.
   */
  lemma KeysNotSynthesized()
    ensures forall k :: k in ConceptKeys() ==> k != "debt" && k != "fcf" && k != "ebitda"
  {
    forall k | k in ConceptKeys()
      ensures k != "debt" && k != "fcf" && k != "ebitda"
    {
      var i := KeyOrigin(XbrlTagsLocal, k);
      if i < 12 { KeysNotSynthesizedFirstHalf(i); } else { KeysNotSynthesizedSecondHalf(i); }
    }
  }

  /** Three tiers in priority order: annual, quarterly, semi-annual report, all under ordinance 010. */
  lemma FormTiersInPriorityOrder()
    ensures |EdinetForms| == 3
    ensures EdinetForms[0].ordinanceCode == "010" && EdinetForms[0].formCode == "030000"
    ensures EdinetForms[1].ordinanceCode == "010" && EdinetForms[1].formCode == "043000"
    ensures EdinetForms[2].ordinanceCode == "010" && EdinetForms[2].formCode == "053000"
  {
  }

  /** Every primitive concept that the synthesis of debt, free cash flow and EBITDA reads is a configured concept. */
  lemma SynthesisInputsConfigured()
    ensures XbrlTagsLocal[17].key == "debt_short" && XbrlTagsLocal[18].key == "debt_long"
    ensures XbrlTagsLocal[19].key == "bonds"
    ensures XbrlTagsLocal[20].key == "ocf" && XbrlTagsLocal[21].key == "capex"
    ensures XbrlTagsLocal[2].key == "op" && XbrlTagsLocal[22].key == "dep_amort"
  {
  }

  /** The health thresholds: two upper bounds and three lower bounds, all positive. */
  lemma HealthThresholdValues()
    ensures EquityRatioMin == 0.80 && DebtToEquityMax == 2.0
    ensures CurrentRatioMin == 1.0 && QuickRatioMin == 1.0 && FixedRatioMax == 1.0
    ensures 0.0 < EquityRatioMin && 0.0 < CurrentRatioMin && 0.0 < QuickRatioMin
    ensures 0.0 < FixedRatioMax < 1000000000.0 && 0.0 < DebtToEquityMax < 1000000000.0
  {
  }

  /** The profitability bands are ordered, so each tiered verdict covers a distinct interval. */
  lemma ProfitBandsOrdered()
    ensures 0.0 < GrossMarginLow <= GrossMarginHigh
    ensures 0.0 < OpMarginGood < OpMarginHigh
    ensures 0.0 < NetMarginThin < NetMarginGood
    ensures 0.0 < RoeLow < RoeExcellent
  {
  }

  /** The discount rate is positive and the horizon covers the five growth years. */
  lemma ValuationDefaultsWellFormed()
    ensures DefaultWacc > 0.0
    ensures DcfHorizonYears >= 5
  {
  }
}
