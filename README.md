# Japanese stock analysis: the EDINET-to-metrics pipeline in Dafny

This project models the deterministic core of a stock-analysis app for
Japanese listed companies. The app turns a ticker such as `7203.T` into a set
of financial-statement figures and then into analysis metrics. It runs in
four stages:

1. **Disclosure selection.** The ticker gives a four-digit security code. The
   app scans the EDINET daily document indexes back from today for up to 30
   days. Within one day it walks the form tiers in priority order: annual,
   then quarterly, then semi-annual report. It takes the newest matching
   document of the first tier that has a match.
2. **XBRL fact extraction.** The app reads every `.xbrl`/`.xml` member of the
   document's archive. It maps each context id to its period end date. Each
   numeric fact whose local tag name is configured is recorded under its
   concept key and date. It then derives interest-bearing debt, free cash
   flow and EBITDA date by date.
3. **Period selection.** The latest reported date and the latest date before
   it each give a snapshot of every concept. Each snapshot is re-keyed into
   a payload with no price, a 30% tax rate and a 10% cost of capital.
4. **Metrics.** From a snapshot the app computes:
   - balance-sheet health checks with OK/NG verdicts;
   - margins and returns with their grades;
   - growth rates and turnovers;
   - an asset-based value;
   - income-based values, both simple and discounted;
   - price multiples.

Modules:

| module | file | models |
|---|---|---|
| `Common` | common.dfy | Python's `None` and truthiness, and dictionary writes where the last write wins |
| `Config` | config.dfy | the configuration tables and thresholds |
| `Parsing` | parsing.dfy | `str.strip`, `date.fromisoformat` on `YYYY-MM-DD`, and `float` on decimal text |
| `Locator` | locator.dfy | choosing one day's document |
| `Xbrl` | xbrl.dfy | local names, contexts and fact extraction |
| `Synthesis` | synthesis.dfy | the composite concepts |
| `Periods` | periods.dfy | picking the current and previous periods |
| `Metrics` | metrics.dfy | the metrics |
| `Autofill` | autofill.dfy | security code, backward scan, payloads and the whole fill |

How the model is built:
- Loops that the source runs step by step are methods with loop invariants. These are the tier filter and sort, the context and fact loops, the synthesis loop, the date collection and the day scan. Each method is proved equal to a specification function.
- Lemmas state what those functions mean.
- Numbers are exact `real`s.
- A dictionary that may hold `None` is a `map<string, Option<real>>`.
- A date is the integer `YYYYMMDD`, whose order is calendar order.

## Model

| member | source | states |
|---|---|---|
| Config.FormTiersInPriorityOrder | constants.py:14-19 | exactly three tiers, in order annual (010, 030000), quarterly (010, 043000), semi-annual (010, 053000) |
| Config.ConfiguredTagListsDisjoint | constants.py:22-49 | no local tag name is listed under two different concepts |
| Config.KeysNotSynthesized | constants.py:22-49 | no configured concept key is `debt`, `fcf` or `ebitda`, so those series come only from synthesis |
| Config.SynthesisInputsConfigured | constants.py:25-47 | `debt_short`, `debt_long`, `bonds`, `ocf`, `capex`, `op` and `dep_amort` are all configured concepts |
| Config.HealthThresholdValues | constants.py:52-58 | equity ratio ≥ 0.80, debt/equity ≤ 2.0, current and quick ratio ≥ 1.0, fixed ratio ≤ 1.0; all positive and below the 1e9 stand-in |
| Config.ProfitBandsOrdered | constants.py:59-68 | 0 < 0.20 ≤ 0.40 for gross margin; op good < op high; net thin < net good; ROE low < ROE excellent |
| Config.ValuationDefaultsWellFormed | constants.py:70-72 | the default WACC is positive and the horizon covers the five growth years |
| Parsing.Strip | utils.py:106 | the result is empty or neither starts nor ends with whitespace (the whole `str.isspace` set) |
| Parsing.StripSpec | utils.py:106 | the result is a run of the input with only whitespace before it and only whitespace after it |
| Parsing.StripKeepsTrimmed | utils.py:106 | stripping text that has no surrounding whitespace changes nothing |
| Parsing.ParseIsoDate | utils.py:106 | a parsed date is always a valid calendar date |
| Parsing.IsoDateRoundTrip | utils.py:106 | formatting a valid date as YYYY-MM-DD and parsing it back gives that date |
| Parsing.DateOfTextOfFormatted | utils.py:106 | text that begins with a valid date written `YYYY-MM-DD` and does not end in whitespace yields that date |
| Parsing.DateOfTextOfNone | utils.py:106 | an element without text yields no date |
| Parsing.EncodeDateOrder | utils.py:170-171 | comparing encoded dates compares year, then month, then day; equal encodings mean equal dates |
| Parsing.RemoveCommas | utils.py:137 | the result holds no comma and is no longer than the input |
| Parsing.RemoveCommasAppend | utils.py:137 | removing the commas of a concatenation removes those of each part and keeps the parts in order |
| Parsing.RemoveCommasOne | utils.py:137 | a comma is dropped and any other character is kept |
| Parsing.RemoveCommasNone | utils.py:137 | text without a comma is unchanged |
| Parsing.ParseDecimalOfDigits | utils.py:137 | a non-empty run of digits reads as the number it spells |
| Parsing.ParseDecimalOfPoint | utils.py:137 | digits, a point and digits (at least one digit in all) read as the whole part plus the fraction scaled by its digit count |
| Parsing.ParseDecimalSigned | utils.py:137 | a leading `+` changes nothing; text with a leading `-` parses exactly when the rest does, to the negated value |
| Parsing.FactValueOfNone | utils.py:137 | a fact element without text has no value |
| Parsing.GroupedDigits | utils.py:137 | removing the separator between two comma-free groups joins them |
| Parsing.FactValueOfGrouped | utils.py:137 | digit groups joined by a thousands separator (such as `1,234`) read as the number their digits spell together |
| Locator.StrLtIrreflexive | utils.py:69 | no sort key is smaller than itself |
| Locator.StrLtTransitive | utils.py:69 | the string order on sort keys is transitive |
| Locator.StrLtTotal | utils.py:69 | any two different sort keys are ordered one way or the other |
| Locator.StrLtAsymmetric | utils.py:69 | two keys are never each smaller than the other |
| Locator.MatchesCodeSpec | utils.py:61-64 | a document matches exactly when the code is missing or empty, its `secCode` is the code, or the code occurs in its title (a missing title read as empty) |
| Locator.SortKey | utils.py:69 | the key is the submission time when that is non-empty, and otherwise the period end (empty when missing) |
| Locator.IsSubstringOccurs | utils.py:64 | the code-in-title test holds exactly when the code occurs at some position of the title |
| Locator.FilterEmpty | utils.py:67-68 | a tier list is empty exactly when no document of the index is in that tier and matches the code |
| Locator.NewestOfFilter | utils.py:67-70 | the head of a non-empty tier list after the stable descending sort is a matching document that no match outranks, and every earlier match ranks strictly lower |
| Locator.FirstNewestUnique | utils.py:69-70 | at most one position satisfies that description, so the choice within a tier is determined |
| Locator.PickFromTiersChoice | utils.py:66-71 | over any tier list: none exactly when no tier has a match; otherwise the first newest document of the first tier with a match |
| Locator.PickLatestChoice | utils.py:60-71 | the same for the configured tiers: a later tier is never chosen while an earlier one matches, whatever the timestamps |
| Locator.FilterTier | utils.py:67 | the loop collects exactly the tier list, in index order |
| Locator.NewestIn | utils.py:69-70 | the one-pass scan returns the head of the sorted tier |
| Locator.PickLatestDoc | utils.py:60-71 | the imperative selection returns exactly the specified choice |
| Xbrl.Iter | utils.py:95 | iteration yields the element itself first |
| Xbrl.AfterFirstSplit | utils.py:86-89 | splitting once at the first separator returns exactly the text after it |
| Xbrl.LocalNameOfClark | utils.py:86-87 | a `{namespace}local` tag yields `local` |
| Xbrl.LocalNameOfPrefixed | utils.py:88-89 | a `prefix:local` tag yields `local` |
| Xbrl.LocalNameOfPlain | utils.py:90 | a tag with neither `}` nor `:` is its own local name |
| Xbrl.LastDateSpec | utils.py:101-108 | a context has no end date exactly when none of its date elements parses; otherwise the last parsing one gives it |
| Xbrl.ContextsSpec | utils.py:92-111 | an id is in the context map exactly when some `context` element with that non-empty id has a parsing date element; it maps to the date of the last such element |
| Xbrl.ContextDate | utils.py:101-108 | the inner loop finds the last parsing date of the context |
| Xbrl.ParseContexts | utils.py:92-111 | the loop builds exactly the specified context map |
| Xbrl.ConceptIn | utils.py:142-146 | the concept lookup finds nothing exactly when no concept lists the name |
| Xbrl.ConceptInFirst | utils.py:142-146 | the lookup returns the key of the first concept listing the name |
| Xbrl.ConceptInDisjoint | utils.py:142-146 | with disjoint tag lists, that is the key of any concept listing the name |
| Xbrl.ConceptOfListing | utils.py:142-146 | with the configured table, a configured name is recorded under the one concept that lists it |
| Xbrl.DesiredTagsListed | utils.py:127-132 | a name passes the `desired` filter exactly when the key lookup finds a concept |
| Xbrl.KeyOf | utils.py:142-146 | the loop with `break` returns the first listing concept's key |
| Xbrl.FactOf | utils.py:129-146 | an element gives a fact exactly when its local name is configured, its `contextRef` is non-empty and resolves, and its comma-stripped text parses; the fact has that key, date and value |
| Xbrl.RecordKeys | utils.py:145 | recording facts adds only the keys of those facts |
| Xbrl.RecordAt | utils.py:145 | under each concept, the facts are written in order, so the last one for a date wins |
| Xbrl.Lower | utils.py:118 | lower-casing keeps the length and maps each character |
| Xbrl.XbrlMembers | utils.py:118 | exactly the archive members whose name ends in `.xbrl` or `.xml` in any case are read |
| Xbrl.XbrlMembersAppend | utils.py:118 | filtering a concatenation filters each part, so archive order and repeated members are kept |
| Xbrl.XbrlMembersOne | utils.py:118 | one member is kept exactly when its name ends in `.xbrl` or `.xml` |
| Xbrl.AllFactKeysListed | utils.py:142-146 | every recorded fact is under a configured concept |
| Xbrl.ExtractedKeys | utils.py:119 | the extracted series has exactly one entry per configured concept, whatever the documents hold |
| Xbrl.ExtractedHasNoComposites | utils.py:119 | before synthesis the series holds the configured keys and none of `debt`, `fcf`, `ebitda` |
| Xbrl.RecordedEntry | utils.py:119-146 | starting from the empty per-concept series, a date is under a concept exactly when some fact has that key and date, with the value of the last such fact |
| Xbrl.RecordElement | utils.py:130-146 | one loop step records exactly the fact the element gives, if any |
| Xbrl.RecordNodes | utils.py:129-146 | the fact loop records the elements' facts in document order |
| Xbrl.RecordDocument | utils.py:126-146 | one document records its facts resolved against its own contexts |
| Xbrl.RecordMember | utils.py:121-146 | one archive member records exactly its own facts, and none when it does not parse |
| Xbrl.RecordFiles | utils.py:120-146 | the members are processed in archive order |
| Xbrl.ParseXbrlSeries | utils.py:113-161 | the whole extraction returns the specified series: the extracted facts, then the composites |
| Synthesis.DebtPartStep | utils.py:150-154 | processing one more date adds a debt entry exactly when the three-part sum is non-zero |
| Synthesis.FcfPartStep | utils.py:156-157 | processing one more date adds an FCF entry exactly when both inputs are reported |
| Synthesis.EbitdaPartStep | utils.py:159-160 | processing one more date adds an EBITDA entry exactly when both inputs are reported |
| Synthesis.SynthesizedOnAt | utils.py:149-160 | after the synthesis each composite key holds its old entries plus the new ones; every other key is untouched |
| Synthesis.DebtUpdate | utils.py:150-154 | the debt step reads unchanged inputs from the series being filled and keeps the loop invariant |
| Synthesis.FcfUpdate | utils.py:156-157 | the FCF step reads unchanged inputs and keeps the loop invariant |
| Synthesis.EbitdaUpdate | utils.py:159-160 | the EBITDA step reads unchanged inputs and keeps the loop invariant |
| Synthesis.WriteDebt | utils.py:150-154 | the in-place debt write advances the debt part by one date |
| Synthesis.WriteFcf | utils.py:156-157 | the in-place FCF write advances the FCF part by one date |
| Synthesis.WriteEbitda | utils.py:159-160 | the in-place EBITDA write advances the EBITDA part by one date |
| Synthesis.DoneForAll | utils.py:149-160 | once every date is processed the series is the synthesized one |
| Synthesis.AddComposites | utils.py:149-160 | the loop over all observed dates, in any order, yields exactly the synthesized series |
| Synthesis.DebtRule | utils.py:150-154 | debt appears at exactly the observed dates whose short + long + bonds sum (missing as 0) is non-zero, with that sum; the key exists only if some date got an entry |
| Synthesis.FcfRule | utils.py:156-157 | FCF appears at exactly the dates reporting both `ocf` and `capex`, as `ocf − abs(capex)` |
| Synthesis.EbitdaRule | utils.py:159-160 | EBITDA appears at exactly the dates reporting both `op` and `dep_amort`, as `op + abs(dep_amort)` |
| Synthesis.OtherKeysKept | utils.py:149-160 | no key other than the three composites is changed |
| Periods.MaxDate | utils.py:170 | the maximum of a non-empty date set is its greatest member |
| Periods.SnapshotAt | utils.py:173-180 | a snapshot has every series key, with a value exactly where that series reports the date |
| Periods.PickedSpec | utils.py:163-183 | no dates gives empty snapshots and no dates; otherwise latest is the greatest date and the current snapshot has every key; older is the greatest date strictly below latest, or none; the previous snapshot is empty exactly when older is none |
| Periods.CollectDates | utils.py:165-167 | the accumulation loop collects exactly the dates observed under any key |
| Periods.MaxOf | utils.py:170-171 | `max(..., default=None)` is none exactly for the empty set and otherwise the greatest member |
| Periods.AtDate | utils.py:173-180 | `at_date(None)` is empty; otherwise the loop builds the snapshot at that date |
| Periods.PickCurrentPrevious | utils.py:163-183 | the procedure returns exactly the specified pick |
| Metrics.SafeDiv | utils.py:24-30 | none exactly when an operand is missing or the divisor is zero; otherwise the quotient times the divisor is the dividend |
| Metrics.AtLeast | utils.py:235-238 | a "≥" verdict is OK exactly when the ratio exists and meets the positive minimum; a missing ratio fails |
| Metrics.AtMost | utils.py:236-239 | a "≤" verdict is OK exactly when the ratio is non-zero and within the maximum; missing and exactly zero both fail |
| Metrics.EquityRatio | utils.py:226 | the equity ratio exists exactly when equity is there and total assets are non-zero; times total assets it gives equity |
| Metrics.DebtToEquity | utils.py:227 | debt/equity exists exactly when total liabilities and equity are non-zero; times equity it gives total liabilities |
| Metrics.CurrentRatio | utils.py:228 | the current ratio exists exactly when current assets are there and current liabilities are non-zero; times those it gives current assets |
| Metrics.QuickRatio | utils.py:229-230 | the quick ratio exists exactly when current liabilities are non-zero; times those it gives current assets less inventories (missing as 0) |
| Metrics.FixedRatio | utils.py:231-232 | the fixed ratio exists exactly when equity is non-zero; times equity it gives fixed assets, intangibles and investments (missing as 0) |
| Metrics.CalcHealth | utils.py:225-240 | each row carries its ratio as above; each verdict is OK exactly when its figures are there, the divisor is non-zero and the quotient meets its threshold; a "≤" check also fails on a zero quotient |
| Metrics.EquityRatioExample | utils.py:226-235 | equity 450 over total assets 500 is a ratio of 0.9, which passes |
| Metrics.JudgeOpm | utils.py:257-261 | the operating-margin grade: blank for none, high from 10%, sound from 5% to 10%, low below 5% |
| Metrics.JudgeNm | utils.py:263-267 | the net-margin grade: excellent from 5%, thin up to 3%, middle strictly between |
| Metrics.JudgeRoe | utils.py:269-273 | the ROE grade: excellent from 10%, low up to 5%, middle strictly between |
| Metrics.JudgeRoa | utils.py:275-277 | the ROA grade: good from 5%, plain below |
| Metrics.Margin | utils.py:250-253 | a margin exists exactly when sales are non-zero and the profit figure is there; times sales it gives the profit |
| Metrics.GrossMargin | utils.py:246-250 | the gross margin exists exactly when sales are non-zero; times sales it is sales minus cost of sales (missing as 0) |
| Metrics.OpMargin | utils.py:251 | operating profit per unit of non-zero sales |
| Metrics.OrdinaryMargin | utils.py:252 | ordinary profit per unit of non-zero sales, only when ordinary profit is reported |
| Metrics.NetMargin | utils.py:253 | net income per unit of non-zero sales |
| Metrics.Roe | utils.py:254 | net income per unit of non-zero equity |
| Metrics.Roa | utils.py:255 | net income per unit of non-zero total assets |
| Metrics.CalcProfitability | utils.py:245-286 | the gross mark is OK exactly inside the 20%–40% band, else CHK; the ordinary mark is OK exactly when that margin exists, else blank; the other four figures carry their judges' grades |
| Metrics.Growth | utils.py:292 | a growth rate exists exactly when the previous figure is non-zero; growing the previous figure by it gives the current one (missing as 0) |
| Metrics.Mean2 | utils.py:298-299 | the mean exists exactly when both balances are non-zero, and is half their sum |
| Metrics.Turnover | utils.py:298-305 | a turnover exists exactly when the flow is there and both balances are non-zero with a non-zero sum; times the mean balance it gives the flow |
| Metrics.CalcGrowth | utils.py:291-305 | the sales, operating and net growth are the growth rates of those figures; each turnover exists exactly under its conditions and is that turnover |
| Metrics.CalcAssetValue | utils.py:323-334 | adjusted assets minus the liquidation value is total liabilities (missing as 0) |
| Metrics.AssetHaircut | utils.py:324-333 | raising one asset figure by e raises both values by its weight times e: 1 for cash and short-term investments, 0.85 for receivables, 0.5 for inventories, fixed assets and investments, 0 for intangibles |
| Metrics.AdjustedAssetsBounds | utils.py:324-332 | with non-negative figures the haircut assets lie between cash plus short-term investments and the unadjusted total; intangibles never change the value |
| Metrics.EffectiveWacc | utils.py:337 | the WACC used is the snapshot's when non-zero, else the 10% default, and never zero |
| Metrics.CalcIncomeValue | utils.py:336-349 | none exactly when the discounting divides by zero (WACC −1); the simple values are net cash plus the flat and the bull-case FCF over WACC |
| Metrics.Perpetuity | utils.py:343-348 | discounting a flow over years lo+1..hi and adding its perpetuity at year hi gives its perpetuity at year lo |
| Metrics.WeakDcfIsSimple | utils.py:340-349 | over exact reals the discounted weak estimate equals the simple one |
| Metrics.StrongDcfCollapses | utils.py:341-349 | the discounted strong estimate is net cash plus the five growth years plus the bull-case perpetuity discounted from year 5 |
| Metrics.PowOne | utils.py:345 | a growth factor of 1 raised to any power is 1 |
| Metrics.GrowingPvFlat | utils.py:344-346 | a flow growing at factor 1 discounts like a constant flow |
| Metrics.PvRangeSplit | utils.py:344-347 | the discounted sum over years lo..hi is the sum over lo..mid plus the sum over mid+1..hi |
| Metrics.StrongDcfWithoutGrowth | utils.py:344-348 | with zero growth the discounted strong case equals the discounted weak case |
| Metrics.NoFcfMeansNetCash | utils.py:338-349 | with FCF missing or zero, all four estimates are the net cash |
| Metrics.MarketCap | utils.py:352-354 | the market capitalisation exists exactly when price and shares are non-zero; it is their product and never zero |
| Metrics.EnterpriseValue | utils.py:355-357 | EV exists exactly with the market capitalisation and exceeds it by debt minus cash and short-term investments |
| Metrics.Multiple | utils.py:364-369 | a multiple exists exactly when its numerator exists and its divisor is non-zero; times the divisor it gives the numerator |
| Metrics.PriceMultiple | utils.py:364-367 | PER, PCFR, PSR and PBR exist exactly with a market capitalisation and a non-zero figure; times that figure they give the market capitalisation |
| Metrics.EarningsYield | utils.py:368 | the earnings yield exists exactly with a market capitalisation and net income, and is the reciprocal of PER whenever PER exists |
| Metrics.EvEbitda | utils.py:369 | EV/EBITDA exists exactly with a market capitalisation and non-zero EBITDA; times EBITDA it gives EV |
| Metrics.Roic | utils.py:359-370 | ROIC exists exactly when operating profit is there and invested capital is non-zero; times invested capital it is after-tax operating profit |
| Metrics.Accruals | utils.py:371-374 | accruals exist exactly when both years' assets are non-zero with a non-zero sum; times the mean assets they are net income minus operating cash flow |
| Metrics.CalcPriceMetrics | utils.py:351-388 | the price (0 when missing), the market capitalisation and each multiple as above; PER × PBR exists exactly when both do and is their product |
| Autofill.BeforeDot | utils.py:186 | the result is the prefix of the ticker before its first dot, or all of it |
| Autofill.DigitsOf | utils.py:186 | the result is all digits, no longer than the input, and empty exactly when the input has no digit |
| Autofill.DigitsOfAppend | utils.py:186 | the digits of a concatenation are those of each part, in order |
| Autofill.DigitsOfOne | utils.py:186 | a digit is kept and any other character is dropped |
| Autofill.LastN | utils.py:186 | the result is the suffix of length min(n, length) |
| Autofill.SecCode | utils.py:186 | the code is none exactly when there is no digit before the first dot; otherwise it is the last one to four of those digits |
| Autofill.SecCodeOfTokyoTicker | utils.py:186 | `7203.T` gives `7203` |
| Autofill.SecCodeKeepsLastFour | utils.py:186 | `12345.T9` gives `2345`: only digits before the dot count, and only the last four |
| Autofill.SecCodeOfLetters | utils.py:186 | `AAPL.9` gives no code |
| Autofill.ScanFromSpec | utils.py:190-199 | the scan from day lo finds nothing exactly when no later day in the lookback yields a document; otherwise it finds the first yielding day's document |
| Autofill.ScanSpec | utils.py:190-201 | over the 30-day lookback: not found exactly when no day yields; otherwise the most recent yielding day's document |
| Autofill.FindDocument | utils.py:188-199 | the loop that skips failed queries and stops at the first hit returns the specified scan result |
| Autofill.Payload | utils.py:207-219 | every copied figure is as the snapshot has it (missing as none); price is none, tax 0.30 and WACC 0.10; no other key |
| Autofill.PayloadMetrics | utils.py:207-219 | on a payload the income valuation always exists at a 10% WACC, the tax figure is 0.30, and no market capitalisation or price multiple exists |
| Autofill.AutofillSpec | utils.py:185-222 | not found exactly when no day yields a document; a fill's current payload has every figure key; the previous payload is empty exactly when there is no previous date, which is always before the current one |
| Autofill.AutofillFinancials | utils.py:185-222 | the procedure returns exactly the specified outcome |

## Left out

- Network calls are not modelled: `get_price_data`, `edinet_list_documents` and `edinet_download_zip`. The day-index query and the archive download are parameters instead. `index(i)` is the result list of the day `i` days back, or none when the query raises. A response without a `results` field reads as the empty list.
- The clock is not modelled. `today` is replaced by the day offset `i`, and the ISO date string built for each day is not modelled.
- ZIP and XML parsing are not modelled (`zipfile`, `etree.parse`). An archive is a list of members. Each member has a name and an already-parsed element tree, or none when it fails to parse.
- A ZIP that cannot be opened is not modelled.
- Of `_localname`, only the string fallback is modelled. `etree.QName` is not.
- `str.isdigit` and `str.lower` are modelled on ASCII only. `str.strip` removes the whole `str.isspace` set, including the separators U+001C to U+001F.
- `float()` is modelled on decimal text only: optional sign, digits and an optional point. Exponents, `inf`, `nan` and underscores between digits (`1_000`) are not modelled; the model reads such text as no value.
- Comments and processing instructions in an XBRL document are not modelled, because an element's tag is always a string here. lxml's `iter()` yields them with a non-string tag. `"}" in tag` (utils.py:86) then raises `TypeError`, which `_parse_contexts` (utils.py:96) and the fact loop (utils.py:130) do not catch, so `parse_xbrl_series` aborts on such a document.
- `date.fromisoformat` is modelled on the `YYYY-MM-DD` form only.
- Python float rounding is not modelled; all arithmetic is over exact reals. `Metrics.WeakDcfIsSimple` and `Metrics.StrongDcfCollapses` hold over reals, not for floats.
- `np.mean` of two values is `(a + b) / 2`.
- The tier sort is not modelled as an in-place sort. Only its head is used, and that is computed by a scan that keeps the first maximum. This is the head of Python's stable descending sort.
- `Autofill.AutofillFinancials`: the `RuntimeError` for no document becomes the `NotFound` outcome. A chosen document without a `docID` becomes `NoDocId`; this case includes a `docID` that is present but null.
- `Autofill.AutofillFinancials`: `if doc:` is read as "a document was chosen". A chosen document always has an ordinance code, so it is never an empty (false) dictionary.
- `Metrics.CalcIncomeValue`: the `ZeroDivisionError` at a WACC of −1 becomes a `None` result.
- Display formatting is not modelled: the DataFrames, `fmt_pct`, `fmt_num`, `_fmt` and the row labels. Only the raw values and verdicts are.
- The Streamlit UI and environment loading are not modelled (components.py, main.py, initialize.py).
- Some constants are not modelled: `APP_TITLE`, `DEFAULT_TICKER`, `EDINET_API` and the `Settings` record. The selection logic never reads them.
- The concept table is a parameter of the extraction functions. `Xbrl.XbrlSeries` instantiates it with the configured table.
