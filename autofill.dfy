/**
 * Filling the statements of one listed company from its newest disclosure
 * (utils.py:185-222, autofill_financials_from_edinet): derive the 4-digit
 * security code from the ticker, scan the daily document indexes backwards
 * from today for up to 30 days, take the first day whose index has a matching
 * document, parse that document's XBRL, pick the current and previous periods
 * and re-key each snapshot to the figures the metrics read.
 *
 * The day index and the archive download are network calls; they are
 * parameters here: `index(i)` is the document index of the day `i` days
 * before today, or `None` when that query raises, and `download(id)` is the
 * list of archive members of document `id`.
 */
module Autofill {
  import opened Common
  import opened Parsing
  import opened Locator
  import opened Xbrl
  import opened Synthesis
  import opened Periods
  import opened Metrics

  // ---------- The security code (utils.py:186) ----------

  /** `s.split(".")[0]`: the text before the first dot, or all of it. */
  function BeforeDot(s: string): (r: string)
    ensures |r| <= |s| && r == s[..|r|]
    ensures '.' !in r
    ensures |r| < |s| ==> s[|r|] == '.'
  {
    if s == [] || s[0] == '.' then [] else [s[0]] + BeforeDot(s[1..])
  }

  /** The digits of `s`, in order. */
  function DigitsOf(s: string): (r: string)
    ensures AllDigits(r) && |r| <= |s|
    ensures r == [] <==> forall i :: 0 <= i < |s| ==> !IsDigit(s[i])
  {
    if s == [] then []
    else
      var rest := DigitsOf(s[1..]);
      assert forall i :: 1 <= i < |s| ==> s[1..][i - 1] == s[i];
      if IsDigit(s[0]) then [s[0]] + rest else rest
  }

  /** The digits of a concatenation are those of each part, in order. */
  lemma {:induction false} DigitsOfAppend(a: string, b: string)
    ensures DigitsOf(a + b) == DigitsOf(a) + DigitsOf(b)
  {
    if a != [] {
      assert (a + b)[1..] == a[1..] + b;
      DigitsOfAppend(a[1..], b);
    } else {
      assert a + b == b;
    }
  }

  /** A digit is kept and any other character dropped. */
  lemma DigitsOfOne(c: char)
    ensures DigitsOf([c]) == if IsDigit(c) then [c] else []
  {
    assert [c][1..] == [];
  }

  /** `s[-n:]`: the last `n` characters, or all of `s` when it is shorter. */
  function LastN(s: string, n: nat): (r: string)
    ensures |r| == if |s| < n then |s| else n
    ensures r == s[|s| - |r|..]
  {
    if |s| <= n then s else s[|s| - n..]
  }

  /**
   * `"".join(c for c in ticker.split(".")[0] if c.isdigit())[-4:] or None`:
   * the last four digits before the first dot; `None` when there is none.
   */
  function SecCode(ticker: string): (r: Option<string>)
    ensures r.None? <==> forall i :: 0 <= i < |BeforeDot(ticker)| ==> !IsDigit(ticker[i])
    ensures r.Some? ==> 1 <= |r.value| <= 4 && AllDigits(r.value)
    ensures r.Some? ==> r.value == LastN(DigitsOf(BeforeDot(ticker)), 4)
  {
    var digits := LastN(DigitsOf(BeforeDot(ticker)), 4);
    assert forall i :: 0 <= i < |BeforeDot(ticker)| ==> BeforeDot(ticker)[i] == ticker[i];
    if digits == [] then None else Some(digits)
  }

  /** A Tokyo ticker gives its code. */
  lemma SecCodeOfTokyoTicker()
    ensures SecCode("7203.T") == Some("7203")
  {
    assert BeforeDot("7203.T") == "7203";
    assert DigitsOf("7203") == "7203";
  }

  /** Only the last four digits before the dot count. */
  lemma SecCodeKeepsLastFour()
    ensures SecCode("12345.T9") == Some("2345")
  {
    assert BeforeDot("12345.T9") == "12345";
    assert DigitsOf("12345") == "12345";
    assert LastN("12345", 4) == "2345";
  }

  /** A ticker with no digit before the dot has no code. */
  lemma SecCodeOfLetters()
    ensures SecCode("AAPL.9") == None
  {
    assert BeforeDot("AAPL.9") == "AAPL";
    assert DigitsOf("AAPL") == "";
  }

  // ---------- The backward scan (utils.py:188-203) ----------

  /** `range(0, 30)`: how many days back the scan looks, today included. */
  const LookbackDays: nat := 30

  /** The document index of the day `i` days back, or `None` when the query for it raises. */
  type DayIndex = nat -> Option<seq<DocMeta>>

  /** What day `i` yields: the selected document of its index, or nothing when the query failed. */
  function HitOn(index: DayIndex, code: Option<string>, i: nat): Option<DocMeta>
  {
    if index(i).Some? then PickLatest(index(i).value, code) else None
  }

  /** The scan from day `i` on: the first day's document that there is, within the lookback. */
  function ScanFrom(index: DayIndex, code: Option<string>, i: nat): Option<DocMeta>
    decreases LookbackDays - i
  {
    if i >= LookbackDays then None
    else
      var hit := HitOn(index, code, i);
      if hit.Some? then hit else ScanFrom(index, code, i + 1)
  }

  /** Day `i` is the first day of the lookback from `lo` on that yields a document. */
  ghost predicate FirstHitFrom(index: DayIndex, code: Option<string>, lo: nat, i: nat)
  {
    lo <= i < LookbackDays && HitOn(index, code, i).Some? &&
    forall j :: lo <= j < i ==> HitOn(index, code, j).None?
  }

  /** The scan from `lo` finds nothing exactly when no day yields, and otherwise the first day's document. */
  lemma {:induction false} ScanFromSpec(index: DayIndex, code: Option<string>, lo: nat)
    ensures ScanFrom(index, code, lo).None? <==> forall j :: lo <= j < LookbackDays ==> HitOn(index, code, j).None?
    ensures forall i :: FirstHitFrom(index, code, lo, i) ==> ScanFrom(index, code, lo) == HitOn(index, code, i)
    decreases LookbackDays - lo
  {
    if lo < LookbackDays {
      ScanFromSpec(index, code, lo + 1);
      forall i | FirstHitFrom(index, code, lo, i) && i != lo
        ensures FirstHitFrom(index, code, lo + 1, i)
      {
      }
    }
  }

  /**
   * The scan over the whole lookback: nothing exactly when no day of it
   * yields a document, and otherwise the document of the most recent day
   * that yields one, however the days after it would have answered.
   */
  lemma ScanSpec(index: DayIndex, code: Option<string>)
    ensures ScanFrom(index, code, 0).None? <==> forall j :: 0 <= j < LookbackDays ==> HitOn(index, code, j).None?
    ensures forall i :: FirstHitFrom(index, code, 0, i) ==> ScanFrom(index, code, 0) == HitOn(index, code, i)
  {
    ScanFromSpec(index, code, 0);
  }

  /**
   * The loop of utils.py:190-201: a day whose query raises is skipped, the
   * first day with a selected document ends the scan.
   */
  method FindDocument(index: DayIndex, code: Option<string>) returns (chosen: Option<DocMeta>)
    ensures chosen == ScanFrom(index, code, 0)
  {
    chosen := None;
    var i: nat := 0;
    while i < LookbackDays
      invariant i <= LookbackDays
      invariant ScanFrom(index, code, 0) == ScanFrom(index, code, i)
    {
      var idx := index(i);
      if idx.None? {
        i := i + 1;
        continue;
      }
      var doc := PickLatestDoc(idx.value, code);
      if doc.Some? {
        chosen := doc;
        return;
      }
      i := i + 1;
    }
  }

  // ---------- The payload (utils.py:207-219) ----------

  /** The figures `build_payload` copies from a snapshot, absent ones as `None`. */
  const PayloadKeys: seq<string> := [
    "sales", "cogs", "op", "ord", "net", "ocf", "fcf", "assets", "equity", "ca", "inv",
    "cl", "tl", "debt", "cash", "ar", "stinv", "invest", "ppe", "intan", "shares", "ebitda"]

  /** The price, tax rate and cost of capital are not among the copied figures. */
  lemma AssumedKeysNotCopied()
    ensures "price" !in PayloadKeys && "tax" !in PayloadKeys && "wacc" !in PayloadKeys
  {
  }

  /** The tax rate `build_payload` assumes. */
  const PayloadTax: real := 0.30

  /** The cost of capital `build_payload` assumes. */
  const PayloadWacc: real := 0.10

  /**
   * `build_payload`: every copied figure as the snapshot has it, no price,
   * and the assumed tax rate and cost of capital.
   */
  function Payload(src: Snapshot): (p: Snapshot)
    ensures forall k :: k in PayloadKeys ==> k in p && p[k] == Get(src, k)
    ensures "price" in p && p["price"] == None
    ensures "tax" in p && p["tax"] == Some(PayloadTax)
    ensures "wacc" in p && p["wacc"] == Some(PayloadWacc)
    ensures forall k :: k in p ==> k in PayloadKeys || k == "price" || k == "tax" || k == "wacc"
  {
    AssumedKeysNotCopied();
    var copied := map k | k in PayloadKeys :: Get(src, k);
    copied["price" := None]["tax" := Some(PayloadTax)]["wacc" := Some(PayloadWacc)]
  }

  /**
   * What the metrics make of a payload: its cost of capital is the assumed
   * 10%, so the income valuation always exists; and with no price there is
   * no market capitalisation, so no price multiple exists.
   */
  lemma PayloadMetrics(src: Snapshot)
    ensures EffectiveWacc(Payload(src)) == PayloadWacc
    ensures CalcIncomeValue(Payload(src)).Some?
    ensures Figure(Payload(src), "tax") == PayloadTax
    ensures MarketCap(Payload(src)).None?
    ensures var r := CalcPriceMetrics(Payload(src), map[]);
            r.per.None? && r.pbr.None? && r.earningsYield.None? && r.evEbitda.None? && r.price == 0.0
  {
    var p := Payload(src);
    assert Get(p, "wacc") == Some(PayloadWacc);
    assert Get(p, "price") == None;
    assert Get(p, "tax") == Some(PayloadTax);
  }

  // ---------- The whole fill (utils.py:185-222) ----------

  /** How a fill ends: no document in the lookback, a chosen document without an ID, or the two payloads and dates. */
  datatype Outcome =
    | NotFound
    | NoDocId(doc: DocMeta)
    | Filled(current: Snapshot, previous: Snapshot, currentDate: Option<Date>, previousDate: Option<Date>)

  /** What `autofill_financials_from_edinet` returns for the ticker, the day indexes and the archives. */
  ghost function AutofillOf(ticker: string, index: DayIndex, download: string -> seq<Member>): Outcome
  {
    var chosen := ScanFrom(index, SecCode(ticker), 0);
    if chosen.None? then NotFound
    else if chosen.value.docId.None? then NoDocId(chosen.value)
    else
      var p := PickedOf(XbrlSeries(download(chosen.value.docId.value)));
      Filled(Payload(p.current), if p.previous != map[] then Payload(p.previous) else map[], p.latest, p.older)
  }

  /**
   * A fill either finds nothing in the lookback, or fills the current
   * payload with every payload figure; the previous payload is empty exactly
   * when there is no earlier date, and the current date is missing only
   * when the document has no dated fact.
   */
  lemma AutofillSpec(ticker: string, index: DayIndex, download: string -> seq<Member>)
    ensures var r := AutofillOf(ticker, index, download);
            r.NotFound? <==> forall j :: 0 <= j < LookbackDays ==> HitOn(index, SecCode(ticker), j).None?
    ensures var r := AutofillOf(ticker, index, download);
            r.Filled? ==> forall k :: k in PayloadKeys ==> k in r.current
    ensures var r := AutofillOf(ticker, index, download);
            r.Filled? ==> (r.previous == map[] <==> r.previousDate.None?)
    ensures var r := AutofillOf(ticker, index, download);
            r.Filled? && r.previousDate.Some? ==> r.currentDate.Some? && r.previousDate.value < r.currentDate.value
  {
    ScanSpec(index, SecCode(ticker));
    var chosen := ScanFrom(index, SecCode(ticker), 0);
    if chosen.Some? && chosen.value.docId.Some? {
      var s := XbrlSeries(download(chosen.value.docId.value));
      PickedSpec(s);
      var p := PickedOf(s);
      if p.previous != map[] {
        assert "price" in Payload(p.previous);
      }
    }
  }

  /**
   * `autofill_financials_from_edinet`: find the document, then parse the
   * downloaded archive, pick the periods and build the two payloads.
   */
  method AutofillFinancials(ticker: string, index: DayIndex, download: string -> seq<Member>) returns (r: Outcome)
    ensures r == AutofillOf(ticker, index, download)
  {
    var code := SecCode(ticker);
    var chosen := FindDocument(index, code);
    if chosen.None? {
      return NotFound;
    }
    if chosen.value.docId.None? {
      return NoDocId(chosen.value);
    }
    var series := ParseXbrlSeries(download(chosen.value.docId.value));
    var picked := PickCurrentPrevious(series);
    var current := Payload(picked.current);
    var previous := if picked.previous != map[] then Payload(picked.previous) else map[];
    return Filled(current, previous, picked.latest, picked.older);
  }
}
