/**
 * The per-concept series that `parse_xbrl_series` fills (concept key, then
 * date, then value), and the composite concepts it derives date by date once
 * every document has been read (utils.py:149-160): interest-bearing debt, free
 * cash flow and EBITDA.
 */
module Synthesis {
  import opened Common
  import opened Parsing

  /** Concept key to (date to value). */
  type Series = map<string, map<Date, real>>

  /** `series.get(k, {})`. */
  function SeriesAt(s: Series, k: string): map<Date, real>
  {
    if k in s then s[k] else map[]
  }

  /** Every date observed under any key. */
  function AllDates(s: Series): set<Date>
  {
    set k, d | k in s && d in s[k] :: d
  }

  /** The keys the synthesis writes. */
  const CompositeKeys: set<string> := {"debt", "fcf", "ebitda"}

  /** Short-term debt + long-term debt + bonds at `d`, a missing part counting as 0. */
  function DebtAt(s: Series, d: Date): real
  {
    LookupOr(SeriesAt(s, "debt_short"), d, 0.0)
    + LookupOr(SeriesAt(s, "debt_long"), d, 0.0)
    + LookupOr(SeriesAt(s, "bonds"), d, 0.0)
  }

  /** The debt entries for the dates `ds`: only non-zero sums are written. */
  function DebtPart(s: Series, ds: set<Date>): map<Date, real>
  {
    map d | d in ds && DebtAt(s, d) != 0.0 :: DebtAt(s, d)
  }

  /** Operating cash flow less the absolute capital expenditure, at the dates of `ds` that report both. */
  function FcfPart(s: Series, ds: set<Date>): map<Date, real>
  {
    map d | d in ds && d in SeriesAt(s, "ocf") && d in SeriesAt(s, "capex")
      :: SeriesAt(s, "ocf")[d] - Abs(SeriesAt(s, "capex")[d])
  }

  /** Operating profit plus the absolute depreciation and amortisation, at the dates of `ds` that report both. */
  function EbitdaPart(s: Series, ds: set<Date>): map<Date, real>
  {
    map d | d in ds && d in SeriesAt(s, "op") && d in SeriesAt(s, "dep_amort")
      :: SeriesAt(s, "op")[d] + Abs(SeriesAt(s, "dep_amort")[d])
  }

  /**
   * `series.setdefault(k, {})[d] = v` for every entry of `m`: key `k` keeps
   * what it held, takes the new entries on top, and is created only when `m`
   * has at least one entry.
   */
  function Merge(s: Series, k: string, m: map<Date, real>): Series
  {
    if m == map[] then s else s[k := SeriesAt(s, k) + m]
  }

  /** The series once the dates `ds` have been processed. */
  function SynthesizedOn(s: Series, ds: set<Date>): Series
  {
    Merge(Merge(Merge(s, "debt", DebtPart(s, ds)), "fcf", FcfPart(s, ds)), "ebitda", EbitdaPart(s, ds))
  }

  /** The series once every observed date has been processed. */
  function Synthesized(s: Series): Series
  {
    SynthesizedOn(s, AllDates(s))
  }

  // ---------- Writing the composites one entry at a time ----------

  /** Adding a date to the debt part adds its entry when the sum is non-zero. */
  lemma DebtPartStep(s: Series, ds: set<Date>, d: Date)
    ensures DebtPart(s, ds + {d})
         == if DebtAt(s, d) != 0.0 then DebtPart(s, ds)[d := DebtAt(s, d)] else DebtPart(s, ds)
  {
  }

  /** Adding a date to the FCF part adds its entry when both inputs are reported. */
  lemma FcfPartStep(s: Series, ds: set<Date>, d: Date)
    ensures var ocf, capex := SeriesAt(s, "ocf"), SeriesAt(s, "capex");
            FcfPart(s, ds + {d})
            == if d in ocf && d in capex then FcfPart(s, ds)[d := ocf[d] - Abs(capex[d])] else FcfPart(s, ds)
  {
  }

  /** Adding a date to the EBITDA part adds its entry when both inputs are reported. */
  lemma EbitdaPartStep(s: Series, ds: set<Date>, d: Date)
    ensures var op, da := SeriesAt(s, "op"), SeriesAt(s, "dep_amort");
            EbitdaPart(s, ds + {d})
            == if d in op && d in da then EbitdaPart(s, ds)[d := op[d] + Abs(da[d])] else EbitdaPart(s, ds)
  {
  }

  /** What key `k` holds after merging `m` into it. */
  function MergedAt(s: Series, k: string, m: map<Date, real>): Option<map<Date, real>>
  {
    if m == map[] then Lookup(s, k) else Some(SeriesAt(s, k) + m)
  }

  /** Two series that read the same at every key are equal. */
  lemma SameLookups(a: Series, b: Series)
    requires forall k :: Lookup(a, k) == Lookup(b, k)
    ensures a == b
  {
    forall k | k in a
      ensures k in b && a[k] == b[k]
    {
      assert Lookup(a, k) == Lookup(b, k);
    }
    forall k | k in b
      ensures k in a
    {
      assert Lookup(a, k) == Lookup(b, k);
    }
  }

  /** One merge changes key `k` only. */
  lemma MergeAt(s: Series, k: string, m: map<Date, real>, j: string)
    ensures Lookup(Merge(s, k, m), j) == if j == k then MergedAt(s, k, m) else Lookup(s, j)
  {
  }

  /** Every key of `SynthesizedOn(s, ds)`: the composites as merged, the others as in `s`. */
  lemma SynthesizedOnAt(s: Series, ds: set<Date>, k: string)
    ensures Lookup(SynthesizedOn(s, ds), k)
         == if k == "debt" then MergedAt(s, k, DebtPart(s, ds))
            else if k == "fcf" then MergedAt(s, k, FcfPart(s, ds))
            else if k == "ebitda" then MergedAt(s, k, EbitdaPart(s, ds))
            else Lookup(s, k)
  {
    var s1 := Merge(s, "debt", DebtPart(s, ds));
    var s2 := Merge(s1, "fcf", FcfPart(s, ds));
    MergeAt(s, "debt", DebtPart(s, ds), k);
    MergeAt(s1, "fcf", FcfPart(s, ds), k);
    MergeAt(s2, "ebitda", EbitdaPart(s, ds), k);
    if k == "fcf" {
      assert SeriesAt(s1, k) == SeriesAt(s, k);
    } else if k == "ebitda" {
      assert SeriesAt(s2, k) == SeriesAt(s, k);
    }
  }

  /** Setting `d` in a key that holds the merge of `m` gives the merge of `m[d := v]`. */
  lemma MergedStep(s: Series, k: string, m: map<Date, real>, d: Date, v: real)
    ensures var cur := MergedAt(s, k, m);
            MergedAt(s, k, m[d := v]) == Some((if cur.Some? then cur.value else map[])[d := v])
  {
    var cur := MergedAt(s, k, m);
    assert d in m[d := v];
    if m == map[] {
      assert (if cur.Some? then cur.value else map[]) == SeriesAt(s, k);
      assert SeriesAt(s, k) + m[d := v] == SeriesAt(s, k)[d := v];
    } else {
      assert SeriesAt(s, k) + m[d := v] == (SeriesAt(s, k) + m)[d := v];
    }
  }

  /** `series` is `s` with debt done for `dd`, FCF for `df` and EBITDA for `de`. */
  ghost predicate DoneFor(s: Series, series: Series, dd: set<Date>, df: set<Date>, de: set<Date>)
  {
    && series - CompositeKeys == s - CompositeKeys
    && Lookup(series, "debt") == MergedAt(s, "debt", DebtPart(s, dd))
    && Lookup(series, "fcf") == MergedAt(s, "fcf", FcfPart(s, df))
    && Lookup(series, "ebitda") == MergedAt(s, "ebitda", EbitdaPart(s, de))
  }

  /** A key outside the composites reads the same in two series that agree outside them. */
  lemma KeptOutside(s: Series, series: Series, k: string)
    requires series - CompositeKeys == s - CompositeKeys
    requires k !in CompositeKeys
    ensures Lookup(series, k) == Lookup(s, k) && SeriesAt(series, k) == SeriesAt(s, k)
  {
    assert k in series <==> k in series - CompositeKeys;
    assert k in s <==> k in s - CompositeKeys;
    if k in series {
      assert series[k] == (series - CompositeKeys)[k];
    }
  }

  /** Writing a composite key leaves every other key alone. */
  lemma CompositeWriteKeepsRest(series: Series, k: string, v: map<Date, real>)
    requires k in CompositeKeys
    ensures series[k := v] - CompositeKeys == series - CompositeKeys
  {
  }

  /** The debt step at `d`, reading its inputs from the series being filled. */
  lemma DebtUpdate(s: Series, series: Series, dd: set<Date>, df: set<Date>, de: set<Date>, d: Date)
    requires DoneFor(s, series, dd, df, de)
    ensures LookupOr(SeriesAt(series, "debt_short"), d, 0.0)
            + LookupOr(SeriesAt(series, "debt_long"), d, 0.0)
            + LookupOr(SeriesAt(series, "bonds"), d, 0.0) == DebtAt(s, d)
    ensures DebtAt(s, d) != 0.0 ==>
              DoneFor(s, series["debt" := SeriesAt(series, "debt")[d := DebtAt(s, d)]], dd + {d}, df, de)
    ensures DebtAt(s, d) == 0.0 ==> DoneFor(s, series, dd + {d}, df, de)
  {
    KeptOutside(s, series, "debt_short");
    KeptOutside(s, series, "debt_long");
    KeptOutside(s, series, "bonds");
    DebtPartStep(s, dd, d);
    var debt := DebtAt(s, d);
    if debt != 0.0 {
      MergedStep(s, "debt", DebtPart(s, dd), d, debt);
      var series' := series["debt" := SeriesAt(series, "debt")[d := debt]];
      assert Lookup(series', "debt") == MergedAt(s, "debt", DebtPart(s, dd + {d}));
      CompositeWriteKeepsRest(series, "debt", SeriesAt(series, "debt")[d := debt]);
    }
  }

  /** The FCF step at `d`, reading its inputs from the series being filled. */
  lemma FcfUpdate(s: Series, series: Series, dd: set<Date>, df: set<Date>, de: set<Date>, d: Date)
    requires DoneFor(s, series, dd, df, de)
    ensures SeriesAt(series, "ocf") == SeriesAt(s, "ocf") && SeriesAt(series, "capex") == SeriesAt(s, "capex")
    ensures var ocf, capex := SeriesAt(series, "ocf"), SeriesAt(series, "capex");
            d in ocf && d in capex ==>
              DoneFor(s, series["fcf" := SeriesAt(series, "fcf")[d := ocf[d] - Abs(capex[d])]], dd, df + {d}, de)
    ensures !(d in SeriesAt(series, "ocf") && d in SeriesAt(series, "capex")) ==> DoneFor(s, series, dd, df + {d}, de)
  {
    KeptOutside(s, series, "ocf");
    KeptOutside(s, series, "capex");
    var ocf, capex := SeriesAt(s, "ocf"), SeriesAt(s, "capex");
    FcfPartStep(s, df, d);
    if d in ocf && d in capex {
      var v := ocf[d] - Abs(capex[d]);
      MergedStep(s, "fcf", FcfPart(s, df), d, v);
      var series' := series["fcf" := SeriesAt(series, "fcf")[d := v]];
      assert Lookup(series', "fcf") == MergedAt(s, "fcf", FcfPart(s, df + {d}));
      CompositeWriteKeepsRest(series, "fcf", SeriesAt(series, "fcf")[d := v]);
    }
  }

  /** The EBITDA step at `d`, reading its inputs from the series being filled. */
  lemma EbitdaUpdate(s: Series, series: Series, dd: set<Date>, df: set<Date>, de: set<Date>, d: Date)
    requires DoneFor(s, series, dd, df, de)
    ensures SeriesAt(series, "op") == SeriesAt(s, "op") && SeriesAt(series, "dep_amort") == SeriesAt(s, "dep_amort")
    ensures var op, da := SeriesAt(series, "op"), SeriesAt(series, "dep_amort");
            d in op && d in da ==>
              DoneFor(s, series["ebitda" := SeriesAt(series, "ebitda")[d := op[d] + Abs(da[d])]], dd, df, de + {d})
    ensures !(d in SeriesAt(series, "op") && d in SeriesAt(series, "dep_amort")) ==> DoneFor(s, series, dd, df, de + {d})
  {
    KeptOutside(s, series, "op");
    KeptOutside(s, series, "dep_amort");
    var op, da := SeriesAt(s, "op"), SeriesAt(s, "dep_amort");
    EbitdaPartStep(s, de, d);
    if d in op && d in da {
      var v := op[d] + Abs(da[d]);
      MergedStep(s, "ebitda", EbitdaPart(s, de), d, v);
      var series' := series["ebitda" := SeriesAt(series, "ebitda")[d := v]];
      assert Lookup(series', "ebitda") == MergedAt(s, "ebitda", EbitdaPart(s, de + {d}));
      CompositeWriteKeepsRest(series, "ebitda", SeriesAt(series, "ebitda")[d := v]);
    }
  }

  /** Before the loop nothing is done. */
  lemma StartDone(s: Series)
    ensures DoneFor(s, s, {}, {}, {})
  {
    assert DebtPart(s, {}) == map[] && FcfPart(s, {}) == map[] && EbitdaPart(s, {}) == map[];
  }

  /** Once every date is done for every composite, the series is the synthesized one. */
  lemma DoneForAll(s: Series, series: Series)
    requires DoneFor(s, series, AllDates(s), AllDates(s), AllDates(s))
    ensures series == Synthesized(s)
  {
    forall k
      ensures Lookup(series, k) == Lookup(Synthesized(s), k)
    {
      SynthesizedOnAt(s, AllDates(s), k);
      if k !in CompositeKeys {
        KeptOutside(s, series, k);
      }
    }
    SameLookups(series, Synthesized(s));
  }

  /** `series.setdefault("debt", {})[d] = debt` when the debt sum at `d` is non-zero. */
  method WriteDebt(ghost s: Series, series: Series, ghost dd: set<Date>, ghost df: set<Date>, ghost de: set<Date>, d: Date)
    returns (series': Series)
    requires DoneFor(s, series, dd, df, de)
    ensures DoneFor(s, series', dd + {d}, df, de)
  {
    DebtUpdate(s, series, dd, df, de, d);
    series' := series;
    var debt := LookupOr(SeriesAt(series, "debt_short"), d, 0.0)
              + LookupOr(SeriesAt(series, "debt_long"), d, 0.0)
              + LookupOr(SeriesAt(series, "bonds"), d, 0.0);
    if debt != 0.0 {
      series' := series["debt" := SeriesAt(series, "debt")[d := debt]];
    }
  }

  /** `series.setdefault("fcf", {})[d] = ocf - abs(capex)` when both are reported at `d`. */
  method WriteFcf(ghost s: Series, series: Series, ghost dd: set<Date>, ghost df: set<Date>, ghost de: set<Date>, d: Date)
    returns (series': Series)
    requires DoneFor(s, series, dd, df, de)
    ensures DoneFor(s, series', dd, df + {d}, de)
  {
    FcfUpdate(s, series, dd, df, de, d);
    series' := series;
    var ocf, capex := SeriesAt(series, "ocf"), SeriesAt(series, "capex");
    if d in ocf && d in capex {
      series' := series["fcf" := SeriesAt(series, "fcf")[d := ocf[d] - Abs(capex[d])]];
    }
  }

  /** `series.setdefault("ebitda", {})[d] = op + abs(dep_amort)` when both are reported at `d`. */
  method WriteEbitda(ghost s: Series, series: Series, ghost dd: set<Date>, ghost df: set<Date>, ghost de: set<Date>, d: Date)
    returns (series': Series)
    requires DoneFor(s, series, dd, df, de)
    ensures DoneFor(s, series', dd, df, de + {d})
  {
    EbitdaUpdate(s, series, dd, df, de, d);
    series' := series;
    var op, da := SeriesAt(series, "op"), SeriesAt(series, "dep_amort");
    if d in op && d in da {
      series' := series["ebitda" := SeriesAt(series, "ebitda")[d := op[d] + Abs(da[d])]];
    }
  }

  /**
   * The synthesis loop (utils.py:149-160): for each observed date, write the
   * debt sum when it is non-zero, FCF when operating cash flow and capital
   * expenditure are both reported, and EBITDA when operating profit and
   * depreciation are both reported.
   */
  method AddComposites(s: Series) returns (series: Series)
    ensures series == Synthesized(s)
  {
    series := s;
    var dates := AllDates(s);
    var todo := dates;
    ghost var done: set<Date> := {};
    StartDone(s);
    while todo != {}
      invariant todo !! done && todo + done == dates
      invariant DoneFor(s, series, done, done, done)
      decreases |todo|
    {
      var d :| d in todo;
      series := WriteDebt(s, series, done, done, done, d);
      series := WriteFcf(s, series, done + {d}, done, done, d);
      series := WriteEbitda(s, series, done + {d}, done + {d}, done, d);
      todo := todo - {d};
      done := done + {d};
    }
    DoneForAll(s, series);
  }

  // ---------- What the synthesis promises ----------

  /**
   * On a series without composite keys (as the extraction leaves it), debt
   * appears at exactly the observed dates whose sum is non-zero, with that
   * sum, and the key exists only when some date received an entry.
   */
  lemma DebtRule(s: Series, d: Date)
    requires CompositeKeys !! s.Keys
    ensures var r := SeriesAt(Synthesized(s), "debt");
            (d in r <==> d in AllDates(s) && DebtAt(s, d) != 0.0) && (d in r ==> r[d] == DebtAt(s, d))
    ensures "debt" in Synthesized(s) <==> DebtPart(s, AllDates(s)) != map[]
  {
    SynthesizedOnAt(s, AllDates(s), "debt");
  }

  /** FCF appears at exactly the dates reporting both operating cash flow and capital expenditure. */
  lemma FcfRule(s: Series, d: Date)
    requires CompositeKeys !! s.Keys
    ensures var r := SeriesAt(Synthesized(s), "fcf");
            var ocf, capex := SeriesAt(s, "ocf"), SeriesAt(s, "capex");
            (d in r <==> d in ocf && d in capex) && (d in r ==> r[d] == ocf[d] - Abs(capex[d]))
  {
    SynthesizedOnAt(s, AllDates(s), "fcf");
    if d in SeriesAt(s, "ocf") {
      assert d in AllDates(s);
    }
  }

  /** EBITDA appears at exactly the dates reporting both operating profit and depreciation. */
  lemma EbitdaRule(s: Series, d: Date)
    requires CompositeKeys !! s.Keys
    ensures var r := SeriesAt(Synthesized(s), "ebitda");
            var op, da := SeriesAt(s, "op"), SeriesAt(s, "dep_amort");
            (d in r <==> d in op && d in da) && (d in r ==> r[d] == op[d] + Abs(da[d]))
  {
    SynthesizedOnAt(s, AllDates(s), "ebitda");
    if d in SeriesAt(s, "op") {
      assert d in AllDates(s);
    }
  }

  /** Every key other than the composites is left as it was. */
  lemma OtherKeysKept(s: Series)
    ensures forall k :: k !in CompositeKeys ==> Lookup(Synthesized(s), k) == Lookup(s, k)
  {
    forall k | k !in CompositeKeys
      ensures Lookup(Synthesized(s), k) == Lookup(s, k)
    {
      SynthesizedOnAt(s, AllDates(s), k);
    }
  }
}
