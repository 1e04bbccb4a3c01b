/**
 * The figures computed from one snapshot of the statements (utils.py:24-30,
 * 225-388): safe division, the balance-sheet health checks, the margins and
 * their grades, growth and turnover, the asset and income valuations, and the
 * price multiples. Only the raw numbers and verdicts are modelled; formatting
 * into tables is not.
 */
module Metrics {
  import opened Common
  import opened Config

  // ---------- Division ----------

  /** `_safe_div(a, b)` (utils.py:24-30): `None` for a missing operand or a zero divisor. */
  function SafeDiv(a: Option<real>, b: Option<real>): (r: Option<real>)
    ensures r.None? <==> a.None? || b.None? || b.value == 0.0
    ensures r.Some? ==> r.value * b.value == a.value
  {
    if a.None? || b.None? || b.value == 0.0 then None else Some(a.value / b.value)
  }

  /** The fixed marks a row can carry: "OK", "NG", "CHK" or an empty cell. */
  datatype Mark = Ok | Ng | Chk | Blank

  // ---------- Health (utils.py:225-240) ----------

  /** The stand-in for a missing ratio in a "≤" check: `1e9`. */
  const MissingRatio: real := 1000000000.0

  /** A "≥" check: `"OK" if (x or 0) >= min else "NG"`. */
  function AtLeast(x: Option<real>, min: real): (m: Mark)
    ensures m == Ok || m == Ng
    ensures min > 0.0 ==> (m == Ok <==> x.Some? && x.value >= min)
  {
    if OrElse(x, 0.0) >= min then Ok else Ng
  }

  /**
   * A "≤" check: `"OK" if (x or 1e9) <= max else "NG"`. Because `or` also
   * replaces an exact `0.0`, a zero ratio fails the check like a missing one.
   */
  function AtMost(x: Option<real>, max: real): (m: Mark)
    ensures m == Ok || m == Ng
    ensures max < MissingRatio ==> (m == Ok <==> Truthy(x) && x.value <= max)
  {
    if OrElse(x, MissingRatio) <= max then Ok else Ng
  }

  /** One row of the health table: the ratio and its verdict. */
  datatype Check = Check(ratio: Option<real>, verdict: Mark)

  /** The five rows of `calc_health`. */
  datatype Health = Health(equityRatio: Check, debtToEquity: Check, currentRatio: Check, quickRatio: Check, fixedRatio: Check)

  /** Current assets less inventories, a missing figure counting as 0. */
  function QuickAssets(cur: Snapshot): real
  {
    OrElse(Get(cur, "ca"), 0.0) - OrElse(Get(cur, "inv"), 0.0)
  }

  /** Tangible fixed assets + intangibles + investments, a missing figure counting as 0. */
  function FixedAssets(cur: Snapshot): real
  {
    OrElse(Get(cur, "ppe"), 0.0) + OrElse(Get(cur, "intan"), 0.0) + OrElse(Get(cur, "invest"), 0.0)
  }

  /** The equity ratio: equity per unit of total assets, when both are there and the assets are non-zero. */
  function EquityRatio(cur: Snapshot): (r: Option<real>)
    ensures r.Some? <==> Get(cur, "equity").Some? && Truthy(Get(cur, "assets"))
    ensures r.Some? ==> r.value * Get(cur, "assets").value == Get(cur, "equity").value
  {
    SafeDiv(Get(cur, "equity"), Get(cur, "assets"))
  }

  /** The debt-to-equity ratio: total liabilities per unit of equity, when both are non-zero. */
  function DebtToEquity(cur: Snapshot): (r: Option<real>)
    ensures r.Some? <==> Truthy(Get(cur, "tl")) && Truthy(Get(cur, "equity"))
    ensures r.Some? ==> r.value * Get(cur, "equity").value == Get(cur, "tl").value
  {
    SafeDiv(OrNone(Get(cur, "tl")), Get(cur, "equity"))
  }

  /** The current ratio: current assets per unit of current liabilities, when both are there and those are non-zero. */
  function CurrentRatio(cur: Snapshot): (r: Option<real>)
    ensures r.Some? <==> Get(cur, "ca").Some? && Truthy(Get(cur, "cl"))
    ensures r.Some? ==> r.value * Get(cur, "cl").value == Get(cur, "ca").value
  {
    SafeDiv(Get(cur, "ca"), Get(cur, "cl"))
  }

  /** The quick ratio: quick assets per unit of current liabilities, when those are non-zero. */
  function QuickRatio(cur: Snapshot): (r: Option<real>)
    ensures r.Some? <==> Truthy(Get(cur, "cl"))
    ensures r.Some? ==> r.value * Get(cur, "cl").value == QuickAssets(cur)
  {
    SafeDiv(Some(QuickAssets(cur)), Get(cur, "cl"))
  }

  /** The fixed ratio: fixed assets per unit of equity, when equity is non-zero. */
  function FixedRatio(cur: Snapshot): (r: Option<real>)
    ensures r.Some? <==> Truthy(Get(cur, "equity"))
    ensures r.Some? ==> r.value * Get(cur, "equity").value == FixedAssets(cur)
  {
    SafeDiv(Some(FixedAssets(cur)), Get(cur, "equity"))
  }

  /**
   * `calc_health`: the five ratios above, each verdict OK exactly when its
   * ratio exists and meets its threshold; a "≤" check also needs a non-zero
   * ratio.
   */
  function CalcHealth(cur: Snapshot): (h: Health)
    ensures h.equityRatio.ratio == EquityRatio(cur) && h.debtToEquity.ratio == DebtToEquity(cur)
    ensures h.currentRatio.ratio == CurrentRatio(cur) && h.quickRatio.ratio == QuickRatio(cur)
    ensures h.fixedRatio.ratio == FixedRatio(cur)
    ensures var equity, assets := Get(cur, "equity"), Get(cur, "assets");
            h.equityRatio.verdict == Ok <==>
              equity.Some? && Truthy(assets) && equity.value / assets.value >= EquityRatioMin
    ensures var tl, equity := Get(cur, "tl"), Get(cur, "equity");
            h.debtToEquity.verdict == Ok <==>
              Truthy(tl) && Truthy(equity) && tl.value / equity.value <= DebtToEquityMax
    ensures var ca, cl := Get(cur, "ca"), Get(cur, "cl");
            h.currentRatio.verdict == Ok <==> ca.Some? && Truthy(cl) && ca.value / cl.value >= CurrentRatioMin
    ensures var cl := Get(cur, "cl");
            h.quickRatio.verdict == Ok <==> Truthy(cl) && QuickAssets(cur) / cl.value >= QuickRatioMin
    ensures var equity := Get(cur, "equity");
            h.fixedRatio.verdict == Ok <==>
              Truthy(equity) && FixedAssets(cur) != 0.0 && FixedAssets(cur) / equity.value <= FixedRatioMax
  {
    var equityRatio := EquityRatio(cur);
    var debtToEquity := DebtToEquity(cur);
    var currentRatio := CurrentRatio(cur);
    var quickRatio := QuickRatio(cur);
    var fixedRatio := FixedRatio(cur);
    Health(
      Check(equityRatio, AtLeast(equityRatio, EquityRatioMin)),
      Check(debtToEquity, AtMost(debtToEquity, DebtToEquityMax)),
      Check(currentRatio, AtLeast(currentRatio, CurrentRatioMin)),
      Check(quickRatio, AtLeast(quickRatio, QuickRatioMin)),
      Check(fixedRatio, AtMost(fixedRatio, FixedRatioMax)))
  }

  /** Equity of 450 over total assets of 500 is an equity ratio of 90%, which passes. */
  lemma EquityRatioExample(cur: Snapshot)
    requires Get(cur, "equity") == Some(450.0) && Get(cur, "assets") == Some(500.0)
    ensures CalcHealth(cur).equityRatio == Check(Some(0.9), Ok)
  {
    assert EquityRatio(cur).value * 500.0 == 450.0;
  }

  // ---------- Profitability (utils.py:245-286) ----------

  /** `judge_opm`: "", 高い (high), 健全 (sound), 低い (low). */
  datatype OpGrade = OpNone | OpHigh | OpSound | OpLow

  /** `judge_nm`: "", 優良 (excellent), 薄利 (thin), 中間 (middle). */
  datatype NetGrade = NetNone | NetExcellent | NetThin | NetMiddle

  /** `judge_roe`: "", 優秀 (excellent), 低 (low), 中 (middle). */
  datatype RoeGrade = RoeNone | RoeTop | RoeBottom | RoeMiddle

  /** `judge_roa`: "", 良 (good), 普 (ordinary). */
  datatype RoaGrade = RoaNone | RoaGood | RoaPlain

  /** `judge_opm` (utils.py:257-261): the band the operating margin falls in. */
  function JudgeOpm(x: Option<real>): (g: OpGrade)
    ensures g == OpNone <==> x.None?
    ensures g == OpHigh <==> x.Some? && x.value >= OpMarginHigh
    ensures g == OpSound <==> x.Some? && OpMarginGood <= x.value < OpMarginHigh
    ensures g == OpLow <==> x.Some? && x.value < OpMarginGood
  {
    if x.None? then OpNone
    else if x.value >= OpMarginHigh then OpHigh
    else if x.value >= OpMarginGood then OpSound
    else OpLow
  }

  /** `judge_nm` (utils.py:263-267): the band the net margin falls in. */
  function JudgeNm(x: Option<real>): (g: NetGrade)
    ensures g == NetNone <==> x.None?
    ensures g == NetExcellent <==> x.Some? && x.value >= NetMarginGood
    ensures g == NetThin <==> x.Some? && x.value <= NetMarginThin
    ensures g == NetMiddle <==> x.Some? && NetMarginThin < x.value < NetMarginGood
  {
    if x.None? then NetNone
    else if x.value >= NetMarginGood then NetExcellent
    else if x.value <= NetMarginThin then NetThin
    else NetMiddle
  }

  /** `judge_roe` (utils.py:269-273): the band the return on equity falls in. */
  function JudgeRoe(x: Option<real>): (g: RoeGrade)
    ensures g == RoeNone <==> x.None?
    ensures g == RoeTop <==> x.Some? && x.value >= RoeExcellent
    ensures g == RoeBottom <==> x.Some? && x.value <= RoeLow
    ensures g == RoeMiddle <==> x.Some? && RoeLow < x.value < RoeExcellent
  {
    if x.None? then RoeNone
    else if x.value >= RoeExcellent then RoeTop
    else if x.value <= RoeLow then RoeBottom
    else RoeMiddle
  }

  /** `judge_roa` (utils.py:275-277): good from 5% up. */
  function JudgeRoa(x: Option<real>): (g: RoaGrade)
    ensures g == RoaNone <==> x.None?
    ensures g == RoaGood <==> x.Some? && x.value >= RoaEfficient
    ensures g == RoaPlain <==> x.Some? && x.value < RoaEfficient
  {
    if x.None? then RoaNone
    else if x.value >= RoaEfficient then RoaGood
    else RoaPlain
  }

  /** `_safe_div(x, sales) if sales else None`: `x` per unit of sales, when sales are non-zero. */
  function Margin(x: Option<real>, sales: Option<real>): (m: Option<real>)
    ensures m.Some? <==> Truthy(sales) && x.Some?
    ensures m.Some? ==> m.value * sales.value == x.value
  {
    if Truthy(sales) then SafeDiv(x, sales) else None
  }

  /** The margins and returns of `calc_profitability` with their marks and grades. */
  datatype Profitability = Profitability(
    grossMargin: Option<real>, opMargin: Option<real>, ordinaryMargin: Option<real>, netMargin: Option<real>,
    roe: Option<real>, roa: Option<real>,
    grossMark: Mark, opGrade: OpGrade, ordinaryMark: Mark, netGrade: NetGrade, roeGrade: RoeGrade, roaGrade: RoaGrade)

  /** The gross margin: gross profit per unit of sales, when sales are non-zero. */
  function GrossMargin(cur: Snapshot): (m: Option<real>)
    ensures m.Some? <==> Truthy(Get(cur, "sales"))
    ensures m.Some? ==> m.value * Get(cur, "sales").value == Get(cur, "sales").value - OrElse(Get(cur, "cogs"), 0.0)
  {
    var sales := Get(cur, "sales");
    Margin(Some(OrElse(sales, 0.0) - OrElse(Get(cur, "cogs"), 0.0)), sales)
  }

  /** The operating margin: operating profit per unit of sales, when both are there and sales are non-zero. */
  function OpMargin(cur: Snapshot): (m: Option<real>)
    ensures m.Some? <==> Truthy(Get(cur, "sales")) && Get(cur, "op").Some?
    ensures m.Some? ==> m.value * Get(cur, "sales").value == Get(cur, "op").value
  {
    Margin(Get(cur, "op"), Get(cur, "sales"))
  }

  /** The ordinary margin: ordinary profit per unit of sales, when both are there and sales are non-zero. */
  function OrdinaryMargin(cur: Snapshot): (m: Option<real>)
    ensures m.Some? <==> Truthy(Get(cur, "sales")) && Get(cur, "ord").Some?
    ensures m.Some? ==> m.value * Get(cur, "sales").value == Get(cur, "ord").value
  {
    if Get(cur, "ord").Some? then Margin(Get(cur, "ord"), Get(cur, "sales")) else None
  }

  /** The net margin: net income per unit of sales, when both are there and sales are non-zero. */
  function NetMargin(cur: Snapshot): (m: Option<real>)
    ensures m.Some? <==> Truthy(Get(cur, "sales")) && Get(cur, "net").Some?
    ensures m.Some? ==> m.value * Get(cur, "sales").value == Get(cur, "net").value
  {
    Margin(Get(cur, "net"), Get(cur, "sales"))
  }

  /** ROE: net income per unit of equity, when equity is non-zero. */
  function Roe(cur: Snapshot): (r: Option<real>)
    ensures r.Some? <==> Get(cur, "net").Some? && Truthy(Get(cur, "equity"))
    ensures r.Some? ==> r.value * Get(cur, "equity").value == Get(cur, "net").value
  {
    SafeDiv(Get(cur, "net"), Get(cur, "equity"))
  }

  /** ROA: net income per unit of total assets, when total assets are non-zero. */
  function Roa(cur: Snapshot): (r: Option<real>)
    ensures r.Some? <==> Get(cur, "net").Some? && Truthy(Get(cur, "assets"))
    ensures r.Some? ==> r.value * Get(cur, "assets").value == Get(cur, "net").value
  {
    SafeDiv(Get(cur, "net"), Get(cur, "assets"))
  }

  /**
   * `calc_profitability`: the gross margin is OK inside its 20%–40% band and
   * to be checked otherwise, the ordinary margin is marked OK whenever it
   * exists, and the other four figures are graded by their judges.
   */
  function CalcProfitability(cur: Snapshot): (p: Profitability)
    ensures p.grossMargin == GrossMargin(cur) && p.opMargin == OpMargin(cur) && p.ordinaryMargin == OrdinaryMargin(cur)
    ensures p.netMargin == NetMargin(cur) && p.roe == Roe(cur) && p.roa == Roa(cur)
    ensures p.grossMark == Ok || p.grossMark == Chk
    ensures p.grossMark == Ok <==> p.grossMargin.Some? && GrossMarginLow <= p.grossMargin.value <= GrossMarginHigh
    ensures p.ordinaryMark == Ok || p.ordinaryMark == Blank
    ensures p.ordinaryMark == Ok <==> p.ordinaryMargin.Some?
    ensures p.opGrade == JudgeOpm(p.opMargin) && p.netGrade == JudgeNm(p.netMargin)
    ensures p.roeGrade == JudgeRoe(p.roe) && p.roaGrade == JudgeRoa(p.roa)
  {
    var gm := GrossMargin(cur);
    var opm := OpMargin(cur);
    var orm := OrdinaryMargin(cur);
    var nm := NetMargin(cur);
    var roe := Roe(cur);
    var roa := Roa(cur);
    var grossMark := if gm.Some? && GrossMarginLow <= gm.value <= GrossMarginHigh then Ok else Chk;
    var ordinaryMark := if orm.None? then Blank else Ok;
    Profitability(gm, opm, orm, nm, roe, roa, grossMark, JudgeOpm(opm), ordinaryMark, JudgeNm(nm), JudgeRoe(roe), JudgeRoa(roa))
  }

  // ---------- Growth and turnover (utils.py:291-305) ----------

  /**
   * `g(cur, prev)`: the growth rate from `prev` to `cur`, defined when `prev`
   * is a non-zero figure; growing `prev` by it gives back `cur` (0 if missing).
   */
  function Growth(cur: Option<real>, prev: Option<real>): (g: Option<real>)
    ensures g.Some? <==> Truthy(prev)
    ensures g.Some? ==> prev.value * (1.0 + g.value) == OrElse(cur, 0.0)
  {
    if Truthy(prev) then SafeDiv(Some(OrElse(cur, 0.0) - OrElse(prev, 0.0)), prev) else None
  }

  /** `np.mean([a, b])` when both figures are non-zero, else `None`. */
  function Mean2(a: Option<real>, b: Option<real>): (m: Option<real>)
    ensures m.Some? <==> Truthy(a) && Truthy(b)
    ensures m.Some? ==> 2.0 * m.value == a.value + b.value
  {
    if Truthy(a) && Truthy(b) then Some((a.value + b.value) / 2.0) else None
  }

  /** A turnover: the flow `x` per unit of the mean of two balances. */
  function Turnover(x: Option<real>, a: Option<real>, b: Option<real>): (r: Option<real>)
    ensures r.Some? <==> x.Some? && Truthy(a) && Truthy(b) && a.value + b.value != 0.0
    ensures r.Some? ==> r.value * (a.value + b.value) == 2.0 * x.value
  {
    SafeDiv(x, Mean2(a, b))
  }

  /** The raw values of `calc_growth`. */
  datatype GrowthRows = GrowthRows(salesGrowth: Option<real>, opGrowth: Option<real>, netGrowth: Option<real>,
                                   assetTurnover: Option<real>, receivablesTurnover: Option<real>)

  /**
   * `calc_growth`: the growth rates of sales, operating profit and net
   * income, and the turnovers of total assets and receivables, each sales
   * per unit of the mean balance of the two years.
   */
  function CalcGrowth(cur: Snapshot, prev: Snapshot): (r: GrowthRows)
    ensures forall k :: k in {"sales", "op", "net"} ==>
              var g := Growth(Get(cur, k), Get(prev, k));
              g == (if k == "sales" then r.salesGrowth else if k == "op" then r.opGrowth else r.netGrowth)
    ensures r.assetTurnover.Some? <==>
              Get(cur, "sales").Some? && Truthy(Get(cur, "assets")) && Truthy(Get(prev, "assets"))
              && Get(cur, "assets").value + Get(prev, "assets").value != 0.0
    ensures r.receivablesTurnover.Some? <==>
              Get(cur, "sales").Some? && Truthy(Get(cur, "ar")) && Truthy(Get(prev, "ar"))
              && Get(cur, "ar").value + Get(prev, "ar").value != 0.0
    ensures r.assetTurnover == Turnover(Get(cur, "sales"), Get(cur, "assets"), Get(prev, "assets"))
    ensures r.receivablesTurnover == Turnover(Get(cur, "sales"), Get(cur, "ar"), Get(prev, "ar"))
  {
    GrowthRows(
      Growth(Get(cur, "sales"), Get(prev, "sales")),
      Growth(Get(cur, "op"), Get(prev, "op")),
      Growth(Get(cur, "net"), Get(prev, "net")),
      Turnover(Get(cur, "sales"), Get(cur, "assets"), Get(prev, "assets")),
      Turnover(Get(cur, "sales"), Get(cur, "ar"), Get(prev, "ar")))
  }

  // ---------- Asset value (utils.py:323-334) ----------

  /** `calc_asset_value`'s two figures. */
  datatype AssetValue = AssetValue(adjustedAssets: real, liquidationValue: real)

  /** A balance-sheet figure, 0 when missing. */
  function Figure(cur: Snapshot, k: string): real
  {
    OrElse(Get(cur, k), 0.0)
  }

  /**
   * `calc_asset_value`: the assets after the haircuts (cash and short-term
   * investments in full, receivables at 85%, inventories, fixed assets and
   * investments at half, intangibles at nothing), and that less total
   * liabilities.
   */
  function CalcAssetValue(cur: Snapshot): (v: AssetValue)
    ensures v.adjustedAssets - v.liquidationValue == Figure(cur, "tl")
  {
    var adjusted :=
      Figure(cur, "cash") + Figure(cur, "stinv") + 0.85 * Figure(cur, "ar") + 0.50 * Figure(cur, "inv")
      + 0.50 * Figure(cur, "ppe") + 0.00 * Figure(cur, "intan") + 0.50 * Figure(cur, "invest");
    AssetValue(adjusted, adjusted - Figure(cur, "tl"))
  }

  /** The figures the haircuts apply to. */
  const AssetKeys: seq<string> := ["cash", "stinv", "ar", "inv", "ppe", "intan", "invest"]

  /** The share of each figure of `AssetKeys` that the adjusted assets count. */
  const AssetWeights: seq<real> := [1.0, 1.0, 0.85, 0.50, 0.50, 0.00, 0.50]

  /**
   * Raising the figure `AssetKeys[i]` by `e` raises the adjusted assets by
   * `AssetWeights[i] * e`, and the liquidation value by the same amount:
   * each figure is counted at its own haircut and no other.
   */
  lemma AssetHaircut(cur: Snapshot, i: nat, x: real, e: real)
    requires i < |AssetKeys|
    ensures var k := AssetKeys[i];
            var lo, hi := CalcAssetValue(cur[k := Some(x)]), CalcAssetValue(cur[k := Some(x + e)]);
            && hi.adjustedAssets == lo.adjustedAssets + AssetWeights[i] * e
            && hi.liquidationValue == lo.liquidationValue + AssetWeights[i] * e
  {
    var k := AssetKeys[i];
    var lo, hi := cur[k := Some(x)], cur[k := Some(x + e)];
    forall j | 0 <= j < |AssetKeys| && j != i
      ensures Figure(lo, AssetKeys[j]) == Figure(hi, AssetKeys[j])
    {
    }
    assert Figure(lo, "tl") == Figure(hi, "tl");
    assert Figure(lo, k) == x && Figure(hi, k) == x + e;
  }

  /**
   * With no negative asset figure the adjusted assets lie between cash plus
   * short-term investments and the unadjusted total, and intangibles never
   * change them.
   */
  lemma AdjustedAssetsBounds(cur: Snapshot, x: Option<real>)
    requires forall i :: 0 <= i < |AssetKeys| ==> Figure(cur, AssetKeys[i]) >= 0.0
    ensures var adjusted := CalcAssetValue(cur).adjustedAssets;
            Figure(cur, "cash") + Figure(cur, "stinv") <= adjusted
            <= Figure(cur, "cash") + Figure(cur, "stinv") + Figure(cur, "ar") + Figure(cur, "inv")
               + Figure(cur, "ppe") + Figure(cur, "intan") + Figure(cur, "invest")
    ensures CalcAssetValue(cur["intan" := x]) == CalcAssetValue(cur)
  {
    assert Figure(cur, AssetKeys[2]) >= 0.0 && Figure(cur, AssetKeys[3]) >= 0.0;
    assert Figure(cur, AssetKeys[4]) >= 0.0 && Figure(cur, AssetKeys[6]) >= 0.0;
    assert Figure(cur, AssetKeys[5]) >= 0.0;
  }

  // ---------- Income value (utils.py:336-349) ----------

  /** `x ** n` for a whole exponent. */
  function Pow(x: real, n: nat): (r: real)
    ensures x != 0.0 ==> r != 0.0
  {
    if n == 0 then 1.0 else x * Pow(x, n - 1)
  }

  /** `sum(c / q ** t for t in range(lo, hi + 1))`: a constant flow discounted over years `lo..hi`. */
  function PvRange(c: real, q: real, lo: nat, hi: nat): real
    requires q != 0.0
    decreases hi
  {
    if hi < lo || hi == 0 then 0.0 else PvRange(c, q, lo, hi - 1) + c / Pow(q, hi)
  }

  /** `sum(c * g ** t / q ** t for t in range(1, n + 1))`: a growing flow discounted over years `1..n`. */
  function GrowingPv(c: real, g: real, q: real, n: nat): real
    requires q != 0.0
  {
    if n == 0 then 0.0 else GrowingPv(c, g, q, n - 1) + c * Pow(g, n) / Pow(q, n)
  }

  /**
   * The discounted weak case: the flow `c` over the horizon, then its
   * perpetuity at WACC `w` discounted from the last year.
   */
  function WeakPv(c: real, w: real): real
    requires w != 0.0 && 1.0 + w != 0.0
  {
    var q := 1.0 + w;
    PvRange(c, q, 1, DcfHorizonYears) + (c / w) / Pow(q, DcfHorizonYears)
  }

  /**
   * The discounted strong case: the flow `c` growing at `g` for five years,
   * then held at its year-5 level for the rest of the horizon and in the
   * terminal perpetuity.
   */
  function StrongPv(c: real, g: real, w: real): real
    requires w != 0.0 && 1.0 + w != 0.0
  {
    var q := 1.0 + w;
    var c5 := Grown(c, g);
    GrowingPv(c, 1.0 + g, q, 5) + PvRange(c5, q, 6, DcfHorizonYears) + (c5 / w) / Pow(q, DcfHorizonYears)
  }

  /** `calc_income_value`'s four estimates. */
  datatype IncomeValue = IncomeValue(weakSimple: real, strongSimple: real, weakDcf: real, strongDcf: real)

  /** `current.get("wacc") or DEFAULT_WACC`: never zero. */
  function EffectiveWacc(cur: Snapshot): (w: real)
    ensures w != 0.0
    ensures Truthy(Get(cur, "wacc")) ==> w == Get(cur, "wacc").value
    ensures !Truthy(Get(cur, "wacc")) ==> w == DefaultWacc
  {
    OrElse(Get(cur, "wacc"), DefaultWacc)
  }

  /** Cash + short-term investments − interest-bearing debt, each 0 when missing. */
  function NetCash(cur: Snapshot): real
  {
    Figure(cur, "cash") + Figure(cur, "stinv") - Figure(cur, "debt")
  }

  /** The flow `c` after five years of growth at rate `g`. */
  function Grown(c: real, g: real): real
  {
    c * Pow(1.0 + g, 5)
  }

  /** The free cash flow after five years of bull-case growth. */
  function BullFcf(fcf: real): real
  {
    Grown(fcf, BullGrowth)
  }

  /**
   * `calc_income_value`: `None` where the discounting raises (a WACC of
   * exactly −1 makes `1 + wacc` zero); otherwise the perpetuity values of the
   * flat and the bull-case cash flow, and their discounted-cash-flow forms
   * over the horizon with a terminal perpetuity.
   */
  function CalcIncomeValue(cur: Snapshot): (r: Option<IncomeValue>)
    ensures r.None? <==> EffectiveWacc(cur) == -1.0
    ensures r.Some? ==> r.value.weakSimple == NetCash(cur) + Figure(cur, "fcf") / EffectiveWacc(cur)
    ensures r.Some? ==> r.value.strongSimple == NetCash(cur) + BullFcf(Figure(cur, "fcf")) / EffectiveWacc(cur)
  {
    var w := EffectiveWacc(cur);
    var fcf := Figure(cur, "fcf");
    var netCash := NetCash(cur);
    var q := 1.0 + w;
    if q == 0.0 then None
    else
      var fcf5 := BullFcf(fcf);
      Some(IncomeValue(netCash + fcf / w, netCash + fcf5 / w,
                       netCash + WeakPv(fcf, w), netCash + StrongPv(fcf, BullGrowth, w)))
  }

  /**
   * One year of the perpetuity `u` of a flow `c` at discount factor `q`
   * (`c + u == u q`, which holds for `u = c / w` and `q = 1 + w`): the flow
   * and the perpetuity discounted by one more year (`r = q p`) are the
   * perpetuity discounted by `p`.
   */
  lemma DiscountStep(c: real, u: real, q: real, p: real, r: real)
    requires q != 0.0 && p != 0.0 && r == q * p && c + u == u * q
    ensures c / r + u / r == u / p
  {
    assert c / r + u / r == (c + u) / r;
    assert (u * q) / (q * p) == u / p;
  }

  /** One more year at the end of the range adds its discounted flow. */
  lemma PvRangeStep(c: real, q: real, lo: nat, hi: nat)
    requires q != 0.0 && 0 < lo <= hi
    ensures PvRange(c, q, lo, hi) == PvRange(c, q, lo, hi - 1) + c / Pow(q, hi)
    ensures Pow(q, hi) == q * Pow(q, hi - 1)
  {
  }

  /** Adding `x` to `e` and then `y` is adding `z`, when `x + y == z`. */
  lemma Telescope(s: real, e: real, x: real, y: real, z: real, total: real)
    requires s == e + x && e + z == total && x + y == z
    ensures s + y == total
  {
  }

  /** `Perpetuity` for a perpetuity `u` of the flow `c` at discount factor `q`. */
  lemma {:induction false} PerpetuityAt(c: real, u: real, q: real, lo: nat, hi: nat)
    requires q != 0.0 && c + u == u * q && lo <= hi
    ensures PvRange(c, q, lo + 1, hi) + u / Pow(q, hi) == u / Pow(q, lo)
    decreases hi
  {
    if hi > lo {
      PerpetuityAt(c, u, q, lo, hi - 1);
      PvRangeStep(c, q, lo + 1, hi);
      DiscountStep(c, u, q, Pow(q, hi - 1), Pow(q, hi));
      Telescope(PvRange(c, q, lo + 1, hi), PvRange(c, q, lo + 1, hi - 1),
                c / Pow(q, hi), u / Pow(q, hi), u / Pow(q, hi - 1), u / Pow(q, lo));
    }
  }

  /**
   * Discounting a flow `c` over years `lo+1..hi` and adding the perpetuity
   * `c / w` discounted from year `hi` gives the perpetuity discounted from
   * year `lo`: the geometric sum behind the discounted-cash-flow forms.
   */
  lemma Perpetuity(c: real, w: real, lo: nat, hi: nat)
    requires w != 0.0 && 1.0 + w != 0.0 && lo <= hi
    ensures PvRange(c, 1.0 + w, lo + 1, hi) + (c / w) / Pow(1.0 + w, hi) == (c / w) / Pow(1.0 + w, lo)
  {
    var u := c / w;
    assert c + u == u * (1.0 + w) by {
      assert u * w == c;
    }
    PerpetuityAt(c, u, 1.0 + w, lo, hi);
  }

  /** Over exact reals the discounted weak case equals the simple perpetuity. */
  lemma WeakDcfIsSimple(cur: Snapshot)
    ensures var r := CalcIncomeValue(cur);
            r.Some? ==> r.value.weakDcf == r.value.weakSimple
  {
    var w := EffectiveWacc(cur);
    if 1.0 + w != 0.0 {
      Perpetuity(Figure(cur, "fcf"), w, 0, DcfHorizonYears);
    }
  }

  /**
   * The discounted strong case is the five growth years plus the bull-case
   * perpetuity discounted from year 5: the years 6..horizon and the terminal
   * value collapse into it.
   */
  lemma StrongDcfCollapses(cur: Snapshot)
    ensures var r := CalcIncomeValue(cur);
            var w := EffectiveWacc(cur);
            var fcf := Figure(cur, "fcf");
            r.Some? ==>
              r.value.strongDcf
              == NetCash(cur) + GrowingPv(fcf, 1.0 + BullGrowth, 1.0 + w, 5) + (BullFcf(fcf) / w) / Pow(1.0 + w, 5)
  {
    var w := EffectiveWacc(cur);
    if 1.0 + w != 0.0 {
      var fcf, q := Figure(cur, "fcf"), 1.0 + w;
      var c5 := BullFcf(fcf);
      Perpetuity(c5, w, 5, DcfHorizonYears);
      assert StrongPv(fcf, BullGrowth, w)
             == GrowingPv(fcf, 1.0 + BullGrowth, q, 5) + (PvRange(c5, q, 6, DcfHorizonYears) + (c5 / w) / Pow(q, DcfHorizonYears));
    }
  }

  /** A flow that does not grow stays at 1 × itself. */
  lemma {:induction false} PowOne(n: nat)
    ensures Pow(1.0, n) == 1.0
  {
    if n > 0 {
      PowOne(n - 1);
    }
  }

  /** A flow growing at factor 1 is discounted like a constant flow. */
  lemma {:induction false} GrowingPvFlat(c: real, q: real, n: nat)
    requires q != 0.0
    ensures GrowingPv(c, 1.0, q, n) == PvRange(c, q, 1, n)
  {
    if n > 0 {
      GrowingPvFlat(c, q, n - 1);
      PowOne(n);
    }
  }

  /** The years `lo..hi` are the years `lo..mid` followed by `mid+1..hi`. */
  lemma {:induction false} PvRangeSplit(c: real, q: real, lo: nat, mid: nat, hi: nat)
    requires q != 0.0 && 0 < lo <= mid <= hi
    ensures PvRange(c, q, lo, mid) + PvRange(c, q, mid + 1, hi) == PvRange(c, q, lo, hi)
    decreases hi
  {
    if hi > mid {
      PvRangeSplit(c, q, lo, mid, hi - 1);
    }
  }

  /** With no growth the discounted strong case is the discounted weak case. */
  lemma StrongDcfWithoutGrowth(c: real, w: real)
    requires w != 0.0 && 1.0 + w != 0.0
    ensures StrongPv(c, 0.0, w) == WeakPv(c, w)
  {
    var q := 1.0 + w;
    var g := 0.0;
    PowOne(5);
    var c5 := Grown(c, g);
    assert c5 == c;
    GrowingPvFlat(c, q, 5);
    PvRangeSplit(c, q, 1, 5, DcfHorizonYears);
    assert StrongPv(c, g, w) == GrowingPv(c, 1.0 + g, q, 5) + PvRange(c5, q, 6, DcfHorizonYears) + (c5 / w) / Pow(q, DcfHorizonYears);
  }

  /** A zero flow has no present value. */
  lemma {:induction false} PvRangeOfZero(q: real, lo: nat, hi: nat)
    requires q != 0.0
    ensures PvRange(0.0, q, lo, hi) == 0.0
    decreases hi
  {
    if !(hi < lo || hi == 0) {
      PvRangeOfZero(q, lo, hi - 1);
    }
  }

  /** A zero flow has no present value, however it grows. */
  lemma {:induction false} GrowingPvOfZero(g: real, q: real, n: nat)
    requires q != 0.0
    ensures GrowingPv(0.0, g, q, n) == 0.0
  {
    if n > 0 {
      GrowingPvOfZero(g, q, n - 1);
    }
  }

  /** With no free cash flow (missing or zero) every estimate is the net cash. */
  lemma NoFcfMeansNetCash(cur: Snapshot)
    requires !Truthy(Get(cur, "fcf"))
    ensures var r := CalcIncomeValue(cur);
            r.Some? ==>
              && r.value.weakSimple == NetCash(cur) && r.value.strongSimple == NetCash(cur)
              && r.value.weakDcf == NetCash(cur) && r.value.strongDcf == NetCash(cur)
  {
    var q := 1.0 + EffectiveWacc(cur);
    if q != 0.0 {
      assert Figure(cur, "fcf") == 0.0;
      assert BullFcf(0.0) == 0.0;
      PvRangeOfZero(q, 1, DcfHorizonYears);
      PvRangeOfZero(q, 6, DcfHorizonYears);
      GrowingPvOfZero(1.0 + BullGrowth, q, 5);
    }
  }

  // ---------- Price multiples (utils.py:351-388) ----------

  /** The raw values of `calc_price_metrics`. */
  datatype PriceMetrics = PriceMetrics(
    price: real, per: Option<real>, pcfr: Option<real>, psr: Option<real>, pbr: Option<real>,
    earningsYield: Option<real>, perTimesPbr: Option<real>, evEbitda: Option<real>, roic: Option<real>,
    accruals: Option<real>, marketCap: Option<real>)

  /** `price * shares` when both are non-zero, else `None`. */
  function MarketCap(cur: Snapshot): (m: Option<real>)
    ensures m.Some? <==> Truthy(Get(cur, "price")) && Truthy(Get(cur, "shares"))
    ensures m.Some? ==> m.value != 0.0 && m.value == Get(cur, "price").value * Get(cur, "shares").value
  {
    var price := OrElse(Get(cur, "price"), 0.0);
    var shares := OrNone(Get(cur, "shares"));
    if price != 0.0 && Truthy(shares) then Some(price * shares.value) else None
  }

  /** Enterprise value: market capitalisation + debt − (cash + short-term investments). */
  function EnterpriseValue(cur: Snapshot): (ev: Option<real>)
    ensures ev.Some? <==> MarketCap(cur).Some?
    ensures ev.Some? ==> ev.value - MarketCap(cur).value == Figure(cur, "debt") - (Figure(cur, "cash") + Figure(cur, "stinv"))
  {
    var m := MarketCap(cur);
    if m.Some? then Some(m.value + Figure(cur, "debt") - (Figure(cur, "cash") + Figure(cur, "stinv"))) else None
  }

  /** `_safe_div(m, x) if m is not None else None`: `m` per unit of `x`. */
  function Multiple(m: Option<real>, x: Option<real>): (r: Option<real>)
    ensures r.Some? <==> m.Some? && Truthy(x)
    ensures r.Some? ==> r.value * x.value == m.value
  {
    if m.Some? then SafeDiv(m, x) else None
  }

  /**
   * A multiple of the market capitalisation over the figure `k`: PER over net
   * income, PCFR over operating cash flow, PSR over sales, PBR over equity.
   * It needs the market capitalisation and a non-zero figure, and times that
   * figure gives the market capitalisation back.
   */
  function PriceMultiple(cur: Snapshot, k: string): (r: Option<real>)
    ensures r.Some? <==> MarketCap(cur).Some? && Truthy(Get(cur, k))
    ensures r.Some? ==> r.value * Get(cur, k).value == MarketCap(cur).value
  {
    Multiple(MarketCap(cur), Get(cur, k))
  }

  /** `a / b` and `b / a` multiply to one. */
  lemma ReciprocalRatios(a: real, b: real, x: real, y: real)
    requires a != 0.0 && b != 0.0 && x * b == a && y * a == b
    ensures x * y == 1.0
  {
    assert x * y * a * b == a * b;
  }

  /** The earnings yield: net income per unit of market capitalisation, the reciprocal of PER. */
  function EarningsYield(cur: Snapshot): (r: Option<real>)
    ensures r.Some? <==> MarketCap(cur).Some? && Get(cur, "net").Some?
    ensures r.Some? ==> r.value * MarketCap(cur).value == Get(cur, "net").value
    ensures var per := PriceMultiple(cur, "net");
            per.Some? ==> r.Some? && per.value * r.value == 1.0
  {
    var m, ni := MarketCap(cur), Get(cur, "net");
    var ey := if m.Some? then SafeDiv(ni, m) else None;
    var per := PriceMultiple(cur, "net");
    if per.Some? then
      ReciprocalRatios(m.value, ni.value, per.value, ey.value);
      ey
    else
      ey
  }

  /** EV/EBITDA: needs the market capitalisation and a non-zero EBITDA. */
  function EvEbitda(cur: Snapshot): (r: Option<real>)
    ensures r.Some? <==> MarketCap(cur).Some? && Truthy(Get(cur, "ebitda"))
    ensures r.Some? ==> r.value * Get(cur, "ebitda").value == EnterpriseValue(cur).value
  {
    Multiple(EnterpriseValue(cur), Get(cur, "ebitda"))
  }

  /** Debt + equity − (cash + short-term investments), each 0 when missing. */
  function InvestedCapital(cur: Snapshot): real
  {
    Figure(cur, "debt") + Figure(cur, "equity") - (Figure(cur, "cash") + Figure(cur, "stinv"))
  }

  /** ROIC: after-tax operating profit per unit of invested capital, when both are there and that is non-zero. */
  function Roic(cur: Snapshot): (r: Option<real>)
    ensures r.Some? <==> Get(cur, "op").Some? && InvestedCapital(cur) != 0.0
    ensures r.Some? ==> r.value * InvestedCapital(cur) == Get(cur, "op").value * (1.0 - Figure(cur, "tax"))
  {
    var op := Get(cur, "op");
    var nopat := if op.Some? then Some(op.value * (1.0 - Figure(cur, "tax"))) else None;
    if nopat.Some? then SafeDiv(nopat, Some(InvestedCapital(cur))) else None
  }

  /** Accruals: (net income − operating cash flow) per unit of mean total assets over the two years. */
  function Accruals(cur: Snapshot, prev: Snapshot): (r: Option<real>)
    ensures var a, b := Get(cur, "assets"), Get(prev, "assets");
            && (r.Some? <==> Truthy(a) && Truthy(b) && a.value + b.value != 0.0)
            && (r.Some? ==> r.value * (a.value + b.value) == 2.0 * (Figure(cur, "net") - Figure(cur, "ocf")))
  {
    var a, b := Get(cur, "assets"), Get(prev, "assets");
    if Truthy(a) && Truthy(b) then Turnover(Some(Figure(cur, "net") - Figure(cur, "ocf")), a, b) else None
  }

  /**
   * `calc_price_metrics`: the closing price (0 when missing), the market
   * capitalisation and each multiple as defined above, with PER × PBR
   * exactly when both multiples exist.
   */
  function CalcPriceMetrics(cur: Snapshot, prev: Snapshot): (r: PriceMetrics)
    ensures r.price == Figure(cur, "price")
    ensures r.marketCap == MarketCap(cur)
    ensures r.per == PriceMultiple(cur, "net") && r.pcfr == PriceMultiple(cur, "ocf")
    ensures r.psr == PriceMultiple(cur, "sales") && r.pbr == PriceMultiple(cur, "equity")
    ensures r.earningsYield == EarningsYield(cur) && r.evEbitda == EvEbitda(cur)
    ensures r.roic == Roic(cur) && r.accruals == Accruals(cur, prev)
    ensures r.perTimesPbr.Some? <==> r.per.Some? && r.pbr.Some?
    ensures r.perTimesPbr.Some? ==> r.perTimesPbr.value == r.per.value * r.pbr.value
  {
    var per := PriceMultiple(cur, "net");
    var pbr := PriceMultiple(cur, "equity");
    var perTimesPbr := if per.Some? && pbr.Some? then Some(per.value * pbr.value) else None;
    PriceMetrics(Figure(cur, "price"), per, PriceMultiple(cur, "ocf"), PriceMultiple(cur, "sales"), pbr,
                 EarningsYield(cur), perTimesPbr, EvEbitda(cur), Roic(cur), Accruals(cur, prev), MarketCap(cur))
  }
}
